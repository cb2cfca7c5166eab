/**
 * The ICF control block and its per-cycle jobs: init and deinit of the
 * chosen variant's queues and ports, the receive step with its dispatch,
 * dequeue for consumers, direct send, enqueue send and the transmit job.
 *
 * The transport drivers are outside the model. Every call the core makes
 * into them that has an effect on the outside world (open_interface,
 * close_interface, send_data) is appended to the ghost log `calls`; what
 * a driver hands back (the outcome of recv_data, readiness from select and
 * fd_isset, the bytes header_copy writes) comes in as a parameter.
 */
module IcfTrxCtrl {
  import opened Wrappers
  import opened IcfUtility
  import opened Ring
  import opened IcfTables

  const ICF_STATUS_SUCCESS: int := 0
  const ICF_STATUS_FAIL: int := -1

  /** A driver call; port is the position of the port in the variant's port table. */
  datatype DriverCall =
    | Open(port: nat, ifname: string, netport: int)
    | Close(port: nat)
    | Send(port: nat, bytes: seq<bv8>)

  /** What recv_data did: failed (a negative return), or wrote data into the receive buffer. */
  datatype RecvOutcome = RecvError | RecvData(data: seq<bv8>)

  // ---------------------------------------------------------------------
  // Driver call log of init and deinit

  /** The open_interface calls of init for the first n ports, in table order. */
  function OpenCalls(ports: seq<CtrlPort>, n: nat): seq<DriverCall>
    requires n <= |ports|
  {
    if n == 0 then []
    else OpenCalls(ports, n - 1) + OpenOf(ports, n - 1)
  }

  /** The open_interface call init makes for port k: one when it is enabled, none otherwise. */
  function OpenOf(ports: seq<CtrlPort>, k: nat): seq<DriverCall>
    requires k < |ports|
  {
    if ports[k].enable != 0 then [Open(k, ports[k].ifname, ports[k].netport)] else []
  }

  /** The close_interface calls of deinit for the first n ports, in table order. */
  function CloseCalls(ports: seq<CtrlPort>, n: nat): seq<DriverCall>
    requires n <= |ports|
  {
    if n == 0 then []
    else CloseCalls(ports, n - 1) + CloseOf(ports, n - 1)
  }

  /** The close_interface call deinit makes for port k: one when it is enabled, none otherwise. */
  function CloseOf(ports: seq<CtrlPort>, k: nat): seq<DriverCall>
    requires k < |ports|
  {
    if ports[k].enable != 0 then [Close(k)] else []
  }

  /**
   * init opens each enabled port exactly once and nothing else: every call
   * is an open of an enabled port with that port's name and network port,
   * the ports come in strictly increasing table order (so none twice), and
   * every enabled port is opened.
   */
  lemma {:induction false} InitOpensEachEnabledPortOnce(ports: seq<CtrlPort>, n: nat)
    requires n <= |ports|
    ensures forall i :: 0 <= i < |OpenCalls(ports, n)| ==>
      var c := OpenCalls(ports, n)[i];
      c.Open? && c.port < n && ports[c.port].enable != 0
      && c == Open(c.port, ports[c.port].ifname, ports[c.port].netport)
    ensures forall i, j :: 0 <= i < j < |OpenCalls(ports, n)| ==>
      OpenCalls(ports, n)[i].port < OpenCalls(ports, n)[j].port
    ensures forall k :: 0 <= k < n && ports[k].enable != 0 ==>
      Open(k, ports[k].ifname, ports[k].netport) in OpenCalls(ports, n)
  {
    if n > 0 {
      InitOpensEachEnabledPortOnce(ports, n - 1);
    }
  }

  /**
   * deinit closes each enabled port exactly once and nothing else, in
   * strictly increasing table order.
   */
  lemma {:induction false} DeinitClosesEachEnabledPortOnce(ports: seq<CtrlPort>, n: nat)
    requires n <= |ports|
    ensures forall i :: 0 <= i < |CloseCalls(ports, n)| ==>
      var c := CloseCalls(ports, n)[i];
      c.Close? && c.port < n && ports[c.port].enable != 0
    ensures forall i, j :: 0 <= i < j < |CloseCalls(ports, n)| ==>
      CloseCalls(ports, n)[i].port < CloseCalls(ports, n)[j].port
    ensures forall k :: 0 <= k < n && ports[k].enable != 0 ==> Close(k) in CloseCalls(ports, n)
  {
    if n > 0 {
      DeinitClosesEachEnabledPortOnce(ports, n - 1);
    }
  }

  // ---------------------------------------------------------------------
  // Registration of queues and ports by index

  function QueueKeys(qt: seq<CtrlQueue>): (keys: seq<int>)
    ensures |keys| == |qt| && forall i :: 0 <= i < |qt| ==> keys[i] == qt[i].queueIdx
  {
    seq(|qt|, i requires 0 <= i < |qt| => qt[i].queueIdx)
  }

  function PortKeys(pt: seq<CtrlPort>): (keys: seq<int>)
    ensures |keys| == |pt| && forall i :: 0 <= i < |pt| ==> keys[i] == pt[i].hwPortIdx
  {
    seq(|pt|, i requires 0 <= i < |pt| => pt[i].hwPortIdx)
  }

  /**
   * The slot array after storing entry i at slot keys[i] for each i in
   * order, starting from no slot set (absent is NULL).
   */
  function Register(keys: seq<int>): map<int, nat> {
    if keys == [] then map[]
    else Register(keys[..|keys| - 1])[keys[|keys| - 1] := |keys| - 1]
  }

  /** Every key gets a slot, no other slot is set, and each slot names an entry with that key. */
  lemma {:induction false} RegisterSlots(keys: seq<int>)
    ensures forall k :: k in Register(keys) <==> k in keys
    ensures forall k :: k in Register(keys) ==> Register(keys)[k] < |keys| && keys[Register(keys)[k]] == k
  {
    if keys != [] {
      var init := keys[..|keys| - 1];
      RegisterSlots(init);
      assert keys == init + [keys[|keys| - 1]];
    }
  }

  /** Registering one more entry stores its position under its key. */
  lemma RegisterStep(keys: seq<int>, n: nat)
    requires n < |keys|
    ensures Register(keys[..n + 1]) == Register(keys[..n])[keys[n] := n]
  {
    assert keys[..n + 1][..n] == keys[..n];
  }

  /** With distinct keys, entry i is found at slot keys[i]: no later entry overwrites it. */
  lemma {:induction false} RegisterFindsEach(keys: seq<int>, i: nat)
    requires forall a, b :: 0 <= a < b < |keys| ==> keys[a] != keys[b]
    requires i < |keys|
    ensures keys[i] in Register(keys) && Register(keys)[keys[i]] == i
  {
    if i < |keys| - 1 {
      var init := keys[..|keys| - 1];
      assert init[i] == keys[i];
      RegisterFindsEach(init, i);
    }
  }

  /** A queue index of the table has a slot once the whole table is registered. */
  lemma QueueRegistered(qt: seq<CtrlQueue>, qidx: int)
    requires exists i :: 0 <= i < |qt| && qt[i].queueIdx == qidx
    ensures qidx in Register(QueueKeys(qt)) && Register(QueueKeys(qt))[qidx] < |qt|
  {
    var i :| 0 <= i < |qt| && qt[i].queueIdx == qidx;
    RegisterSlots(QueueKeys(qt));
    assert QueueKeys(qt)[i] == qidx;
  }

  // ---------------------------------------------------------------------
  // Ports bound by init

  /** The driver ids init binds to the first n ports, by position. */
  function PortDrivers(systemType: int, n: nat): seq<int>
    requires n <= |PortTable(systemType)|
  {
    if n == 0 then [] else PortDrivers(systemType, n - 1) + [PortDriverId(systemType, n - 1)]
  }

  lemma {:induction false} PortDriversAt(systemType: int, n: nat)
    requires n <= |PortTable(systemType)|
    ensures |PortDrivers(systemType, n)| == n
    ensures forall k :: 0 <= k < n ==> PortDrivers(systemType, n)[k] == PortDriverId(systemType, k)
  {
    if n > 0 {
      PortDriversAt(systemType, n - 1);
      assert PortDrivers(systemType, n) == PortDrivers(systemType, n - 1) + [PortDriverId(systemType, n - 1)];
    }
  }

  /**
   * The state after the port loop of init has handled the first n ports:
   * their slots, their drivers, and their open calls after the calls made
   * before init.
   */
  ghost predicate PortsBound(systemType: int, n: nat, slots: map<int, nat>, drivers: seq<int>,
                             log: seq<DriverCall>, before: seq<DriverCall>)
    requires n <= |PortTable(systemType)|
  {
    slots == Register(PortKeys(PortTable(systemType))[..n])
    && drivers == PortDrivers(systemType, n)
    && log == before + OpenCalls(PortTable(systemType), n)
  }

  lemma PortsBoundStep(systemType: int, n: nat, slots: map<int, nat>, drivers: seq<int>,
                       log: seq<DriverCall>, before: seq<DriverCall>)
    requires n < |PortTable(systemType)|
    requires PortsBound(systemType, n, slots, drivers, log, before)
    ensures PortsBound(systemType, n + 1, slots[PortTable(systemType)[n].hwPortIdx := n],
                       drivers + [PortDriverId(systemType, n)], log + OpenOf(PortTable(systemType), n), before)
  {
    RegisterStep(PortKeys(PortTable(systemType)), n);
  }

  // ---------------------------------------------------------------------
  // Queue contents

  /** Appending a cell to the tail of queue pos, every other queue as it was. */
  function PushAt(qs: seq<seq<Cell>>, pos: nat, c: Cell): (r: seq<seq<Cell>>)
    requires pos < |qs|
    ensures |r| == |qs| && r[pos] == qs[pos] + [c]
    ensures forall i :: 0 <= i < |qs| && i != pos ==> r[i] == qs[i]
  {
    qs[pos := qs[pos] + [c]]
  }

  /** The receive buffer: rx_buff_size zeroed bytes from the allocator, overwritten by what was received. */
  function Filled(data: seq<bv8>, size: nat): (buf: seq<bv8>)
    requires |data| <= size
    ensures |buf| == size && buf[..|data|] == data
    ensures forall i :: |data| <= i < size ==> buf[i] == 0
  {
    data + Zeros(size - |data|)
  }

  /** n zero bytes. */
  function Zeros(n: nat): (z: seq<bv8>)
    ensures |z| == n && forall i :: 0 <= i < n ==> z[i] == 0
  {
    if n == 0 then [] else [0] + Zeros(n - 1)
  }

  /** The driver gives back at most the buffer size, and EGSE dispatch can read a CAN id from it. */
  predicate RecvFits(systemType: int, recv: RecvOutcome, rxBuffSize: nat) {
    recv.RecvData? ==> |recv.data| <= rxBuffSize && (systemType != ICF_SYSTEM_TYPE_ESPS ==> rxBuffSize >= 4)
  }

  /**
   * What one receive step hands to a queue: the queue index and the cell,
   * or None when recv_data failed or dispatch chose the empty sentinel.
   * A cell handed over always holds the whole receive buffer, and goes to
   * an inbound queue of the active variant.
   */
  function RxPush(systemType: int, recv: RecvOutcome, rxBuffSize: nat): (p: Option<(int, Cell)>)
    requires RecvFits(systemType, recv, rxBuffSize)
    ensures p.Some? ==> (recv.RecvData? && |p.value.1.l2frame| == rxBuffSize
                         && p.value.1.l2frame[..|recv.data|] == recv.data)
    ensures p.Some? ==> exists i :: 0 <= i < |QueueTable(systemType)| && QueueTable(systemType)[i].queueIdx == p.value.0
                                    && QueueTable(systemType)[i].direction == DirRx
    ensures recv.RecvError? ==> p.None?
  {
    match recv
    case RecvError => None
    case RecvData(d) =>
      var frame := Filled(d, rxBuffSize);
      var qidx := DispatchRxFrame(systemType, frame);
      if qidx == EGSE_EMPTY_SW_QIDX then None else Some((qidx, Cell(frame)))
  }

  /**
   * In the ESPS variant every received frame, whatever its bytes, goes to
   * the GNC queue, provided the sentinel is not the GNC queue index.
   */
  lemma EspsFrameAlwaysQueued(data: seq<bv8>, rxBuffSize: nat)
    requires SentinelIsNoQueue()
    requires |data| <= rxBuffSize
    ensures RxPush(ICF_SYSTEM_TYPE_ESPS, RecvData(data), rxBuffSize)
      == Some((ESPS_GNC_SW_QIDX, Cell(Filled(data, rxBuffSize))))
  {
    assert EspsQueues[1].queueIdx == ESPS_GNC_SW_QIDX;
  }

  /** A frame whose CAN id is unknown, or in the valve and ordnance group, is dropped in the EGSE variant. */
  lemma UnroutedFrameDropped(systemType: int, data: seq<bv8>, rxBuffSize: nat)
    requires systemType != ICF_SYSTEM_TYPE_ESPS
    requires 4 <= |data| <= rxBuffSize
    requires !IsTvcCommand(CanId(data))
    ensures RxPush(systemType, RecvData(data), rxBuffSize) == None
  {
    var frame := Filled(data, rxBuffSize);
    assert frame[..4] == data[..4];
    DispatchReadsOnlyCanId(systemType, frame, data);
    DispatchOutcomes(systemType, data);
  }

  // ---------------------------------------------------------------------
  // The transmit job, as a function of one queue

  /** One transmit job on a queue holding q: the head cell is sent through port, or nothing happens. */
  function TxStep(q: seq<Cell>, port: nat): (seq<Cell>, seq<DriverCall>) {
    if q == [] then (q, []) else (q[1..], [Send(port, q[0].l2frame)])
  }

  /** k transmit jobs in a row on the same queue: the queue left and the sends made, in order. */
  function TxSteps(q: seq<Cell>, port: nat, k: nat): (seq<Cell>, seq<DriverCall>) {
    if k == 0 then (q, [])
    else
      var first := TxStep(q, port);
      var rest := TxSteps(first.0, port, k - 1);
      (rest.0, first.1 + rest.1)
  }

  /** The send_data calls that transmit the given cells through one port, in order. */
  function SendCalls(port: nat, cells: seq<Cell>): (log: seq<DriverCall>)
    ensures |log| == |cells|
    ensures forall i :: 0 <= i < |cells| ==> log[i] == Send(port, cells[i].l2frame)
  {
    if cells == [] then [] else [Send(port, cells[0].l2frame)] + SendCalls(port, cells[1..])
  }

  /** Transmit jobs on an empty queue send nothing and leave it empty. */
  lemma {:induction false} TxJobsIdleOnEmpty(port: nat, k: nat)
    ensures TxSteps([], port, k) == ([], [])
  {
    if k > 0 {
      TxJobsIdleOnEmpty(port, k - 1);
      var none: seq<DriverCall> := [];
      assert TxStep([], port) == ([], none);
      assert none + none == none;
    }
  }

  /**
   * k transmit jobs send the first k queued frames in queue order, one per
   * job, and leave the rest; jobs on an emptied queue send nothing.
   */
  lemma {:induction false} TxJobsSendInOrder(q: seq<Cell>, port: nat, k: nat)
    ensures k <= |q| ==> TxSteps(q, port, k) == (q[k..], SendCalls(port, q[..k]))
    ensures k > |q| ==> TxSteps(q, port, k) == ([], SendCalls(port, q))
  {
    if q == [] {
      TxJobsIdleOnEmpty(port, k);
    } else if k > 0 {
      TxJobsSendInOrder(q[1..], port, k - 1);
      var rest := TxSteps(q[1..], port, k - 1);
      assert TxSteps(q, port, k) == (rest.0, [Send(port, q[0].l2frame)] + rest.1);
      var sent := if k <= |q| then q[..k] else q;
      assert sent[0] == q[0] && sent[1..] == (if k - 1 <= |q[1..]| then q[1..][..k - 1] else q[1..]);
      assert SendCalls(port, sent) == [Send(port, q[0].l2frame)] + SendCalls(port, sent[1..]);
    }
  }

  // ---------------------------------------------------------------------
  // The control block

  class ControlBlock {
    var systemType: int
    /** C->ctrlqueue: queue index -> position of the queue in the variant's queue table; absent is NULL. */
    var queueSlot: map<int, nat>
    /** C->ctrlport: port index -> position of the port in the variant's port table; absent is NULL. */
    var portSlot: map<int, nat>
    /** The ring buffer of each entry of the queue table, by position. */
    var rings: seq<RingBuffer>
    /** The driver id bound to each entry of the port table (its drv_priv_ops), by position. */
    var portDriver: seq<int>
    /** Every open, close and send call made into the drivers so far. */
    ghost var calls: seq<DriverCall>

    /**
     * A zero-initialised control block: no queue or port registered yet.
     * It is not Valid; only Init makes a block Valid and Ready.
     */
    constructor ()
      ensures systemType == 0 && queueSlot == map[] && portSlot == map[]
      ensures rings == [] && portDriver == [] && calls == []
    {
      systemType := 0;
      queueSlot := map[];
      portSlot := map[];
      rings := [];
      portDriver := [];
      calls := [];
    }

    ghost predicate Valid()
      reads this
    {
      |rings| == |QueueTable(systemType)| && |portDriver| == |PortTable(systemType)|
      && (forall i, j :: 0 <= i < j < |rings| ==> rings[i] != rings[j])
      && (forall q :: q in queueSlot ==> queueSlot[q] < |rings|)
      && (forall p :: p in portSlot ==> portSlot[p] < |portDriver|)
    }

    /** Every queue and port of the active variant is registered under its own index. */
    ghost predicate Ready()
      reads this
    {
      Valid()
      && queueSlot == Register(QueueKeys(QueueTable(systemType)))
      && portSlot == Register(PortKeys(PortTable(systemType)))
    }

    /** The cells of every queue, by position in the queue table. */
    ghost function Queues(): (qs: seq<seq<Cell>>)
      reads this, rings
      ensures |qs| == |rings| && forall i :: 0 <= i < |rings| ==> qs[i] == rings[i].cells
    {
      seq(|rings|, i reads this, rings requires 0 <= i < |rings| => rings[i].cells)
    }

    /** The position in the port table of the port that queue qidx is bound to. */
    function PortOf(qidx: int): nat
      reads this
      requires qidx in queueSlot && queueSlot[qidx] < |QueueTable(systemType)|
    {
      QueueTable(systemType)[queueSlot[qidx]].port
    }

    /**
     * icf_ctrlblk_init: every queue of the chosen variant gets a fresh empty
     * ring and is registered under its queue index; every port is registered
     * under its port index, bound to the driver of the mapping entry listed
     * with it, and opened when enabled. The driver is looked up by the
     * port's own index in the intended mapping table; PortDriverIdAsWritten
     * is the by-position lookup of the source, which binds the same drivers
     * under PositionalHeaderValues.
     */
    method Init(st: int) returns (r: int)
      requires queueSlot == map[] && portSlot == map[]
      modifies this
      ensures r == 0
      ensures systemType == st && Ready()
      ensures forall i :: 0 <= i < |rings| ==> fresh(rings[i]) && rings[i].cells == []
      ensures forall k :: 0 <= k < |portDriver| ==> portDriver[k] == PortDriverId(st, k)
      ensures calls == old(calls) + OpenCalls(PortTable(st), |PortTable(st)|)
    {
      systemType := st;
      InitQueues();
      InitPorts();
      RegisterSlots(QueueKeys(QueueTable(st)));
      RegisterSlots(PortKeys(PortTable(st)));
      PortDriversAt(st, |PortTable(st)|);
      assert PortKeys(PortTable(st))[..|PortTable(st)|] == PortKeys(PortTable(st));
      r := 0;
    }

    /** The queue loop of icf_ctrlblk_init. */
    method InitQueues()
      requires queueSlot == map[]
      modifies this`rings, this`queueSlot
      ensures |rings| == |QueueTable(systemType)| && queueSlot == Register(QueueKeys(QueueTable(systemType)))
      ensures forall i :: 0 <= i < |rings| ==> fresh(rings[i]) && rings[i].cells == []
      ensures forall i, j :: 0 <= i < j < |rings| ==> rings[i] != rings[j]
    {
      var queueTbl, queTblSize := ChooseSwQueueTbl(systemType).0, ChooseSwQueueTbl(systemType).1;
      var qkeys := QueueKeys(queueTbl);
      rings := [];
      var idx := 0;
      while idx < GetArrNum(queTblSize, SIZEOF_CTRL_QUEUE)
        invariant idx <= |queueTbl| && |rings| == idx
        invariant forall i :: 0 <= i < idx ==> fresh(rings[i]) && rings[i].cells == []
        invariant forall i, j :: 0 <= i < j < idx ==> rings[i] != rings[j]
        invariant queueSlot == Register(qkeys[..idx])
      {
        var ring := new RingBuffer.Init();
        rings := rings + [ring];
        RegisterStep(qkeys, idx);
        queueSlot := queueSlot[queueTbl[idx].queueIdx := idx];
        idx := idx + 1;
      }
      assert qkeys[..idx] == qkeys;
    }

    /** The port loop of icf_ctrlblk_init. */
    method InitPorts()
      requires portSlot == map[]
      modifies this`portSlot, this`portDriver, this`calls
      ensures PortsBound(systemType, |PortTable(systemType)|, portSlot, portDriver, calls, old(calls))
    {
      var portTbl, portTblSize := ChooseHwPortTbl(systemType).0, ChooseHwPortTbl(systemType).1;
      portDriver := [];
      var idx := 0;
      while idx < GetArrNum(portTblSize, SIZEOF_CTRL_PORT)
        invariant idx <= |portTbl|
        invariant PortsBound(systemType, idx, portSlot, portDriver, calls, old(calls))
      {
        var ctrlport := portTbl[idx];
        PortsBoundStep(systemType, idx, portSlot, portDriver, calls, old(calls));
        portSlot := portSlot[ctrlport.hwPortIdx := idx];
        PortEntryMapped(systemType, idx);
        var driverId := PidxToDriversId(ctrlport.hwPortIdx, systemType);
        portDriver := portDriver + [driverId];
        if ctrlport.enable != 0 {
          calls := calls + [Open(idx, ctrlport.ifname, ctrlport.netport)];
        } else {
          assert calls + OpenOf(portTbl, idx) == calls;
        }
        idx := idx + 1;
      }
    }

    /**
     * icf_ctrlblk_deinit. Its system_type argument is not used: the tables
     * are those of the system type recorded by init. Every ring is emptied,
     * the queue slots are cleared by table position (not by queue index),
     * and every enabled port is closed.
     */
    method Deinit(st: int) returns (r: int)
      requires Valid()
      modifies this`queueSlot, this`calls, rings
      ensures r == 0
      ensures Valid()
      ensures forall i :: 0 <= i < |rings| ==> rings[i].cells == []
      ensures queueSlot == old(queueSlot) - Positions(|rings|)
      ensures calls == old(calls) + CloseCalls(PortTable(systemType), |PortTable(systemType)|)
    {
      DeinitQueues();
      DeinitPorts();
      r := 0;
    }

    /** The queue loop of icf_ctrlblk_deinit. */
    method DeinitQueues()
      requires Valid()
      modifies this`queueSlot, rings
      ensures Valid()
      ensures forall i :: 0 <= i < |rings| ==> rings[i].cells == []
      ensures queueSlot == old(queueSlot) - Positions(|rings|)
    {
      var queueTbl, queTblSize := ChooseSwQueueTbl(systemType).0, ChooseSwQueueTbl(systemType).1;
      var idx := 0;
      while idx < GetArrNum(queTblSize, SIZEOF_CTRL_QUEUE)
        invariant idx <= |rings| && Valid()
        invariant forall i :: 0 <= i < idx ==> rings[i].cells == []
        invariant queueSlot == old(queueSlot) - Positions(idx)
      {
        rings[idx].Deinit();
        queueSlot := queueSlot - {idx};
        idx := idx + 1;
      }
    }

    /** The port loop of icf_ctrlblk_deinit. */
    method DeinitPorts()
      modifies this`calls
      ensures calls == old(calls) + CloseCalls(PortTable(systemType), |PortTable(systemType)|)
    {
      var portTbl, portTblSize := ChooseHwPortTbl(systemType).0, ChooseHwPortTbl(systemType).1;
      var idx := 0;
      while idx < GetArrNum(portTblSize, SIZEOF_CTRL_PORT)
        invariant idx <= |portTbl|
        invariant calls == old(calls) + CloseCalls(portTbl, idx)
      {
        if portTbl[idx].enable != 0 {
          calls := calls + [Close(idx)];
        }
        idx := idx + 1;
      }
    }

    /** icf_rx_dequeue: hand the head frame of queue qidx to a consumer. */
    method RxDequeue(qidx: int, payload: array<bv8>, size: nat) returns (r: int)
      requires Valid() && qidx in queueSlot
      requires size <= payload.Length
      requires rings[queueSlot[qidx]].cells != [] ==> size <= |rings[queueSlot[qidx]].cells[0].l2frame|
      modifies payload, rings[queueSlot[qidx]]
      ensures old(Queues())[queueSlot[qidx]] == [] ==>
        r == 0 && payload[..] == old(payload[..]) && Queues() == old(Queues())
      ensures old(Queues())[queueSlot[qidx]] != [] ==>
        r == 1
        && Queues() == old(Queues())[queueSlot[qidx] := old(Queues())[queueSlot[qidx]][1..]]
        && payload[..size] == old(Queues())[queueSlot[qidx]][0].l2frame[..size]
        && payload[size..] == old(payload[size..])
    {
      var pos := queueSlot[qidx];
      var rxcell := rings[pos].Pop();
      if rxcell.None? {
        return 0;
      }
      forall i | 0 <= i < size {
        payload[i] := rxcell.value.l2frame[i];
      }
      r := 1;
    }

    /** icf_l2frame_receive_process: receive one frame, dispatch it, push it or drop it. */
    method ReceiveProcess(rxBuffSize: nat, recv: RecvOutcome) returns (status: int)
      requires Ready() && RecvFits(systemType, recv, rxBuffSize)
      modifies rings
      ensures RxPush(systemType, recv, rxBuffSize).None? ==>
        status == ICF_STATUS_FAIL && Queues() == old(Queues())
      ensures RxPush(systemType, recv, rxBuffSize).Some? ==>
        var (qidx, cell) := RxPush(systemType, recv, rxBuffSize).value;
        status == ICF_STATUS_SUCCESS && qidx in queueSlot
        && Queues() == PushAt(old(Queues()), queueSlot[qidx], cell)
    {
      match recv
      case RecvError =>
        status := ICF_STATUS_FAIL;
      case RecvData(data) =>
        var l2frame := Filled(data, rxBuffSize);
        var qidx := DispatchRxFrame(systemType, l2frame);
        if qidx == EGSE_EMPTY_SW_QIDX {
          status := ICF_STATUS_FAIL;
        } else {
          QueueRegistered(QueueTable(systemType), qidx);
          var pos := queueSlot[qidx];
          rings[pos].Push(Cell(l2frame));
          status := ICF_STATUS_SUCCESS;
        }
    }

    /**
     * icf_rx_ctrl_job: one receive attempt on port pidx. A CAN port receives
     * only when the readiness check reports it ready; an Ethernet port
     * always tries once; any other port does nothing. Always succeeds.
     */
    method RxCtrlJob(pidx: int, rxBuffSize: nat, ready: bool, recv: RecvOutcome) returns (status: int)
      requires Ready() && pidx in portSlot && RecvFits(systemType, recv, rxBuffSize)
      modifies rings
      ensures status == ICF_STATUS_SUCCESS
      ensures
        var dev := PortTable(systemType)[portSlot[pidx]].devType;
        var p := if (dev == CanDevice && ready) || dev == EthernetDevice
                 then RxPush(systemType, recv, rxBuffSize) else None;
        (p.None? ==> Queues() == old(Queues()))
        && (p.Some? ==> p.value.0 in queueSlot && Queues() == PushAt(old(Queues()), queueSlot[p.value.0], p.value.1))
    {
      var ctrlport := PortTable(systemType)[portSlot[pidx]];
      match ctrlport.devType {
        case CanDevice =>
          if ready {
            var _ := ReceiveProcess(rxBuffSize, recv);
          }
        case EthernetDevice =>
          var _ := ReceiveProcess(rxBuffSize, recv);
        case Rs422Device =>
      }
      status := ICF_STATUS_SUCCESS;
    }

    /**
     * icf_tx_direct: send header ++ payload[..size] through the port queue
     * qidx is bound to. header is what header_copy writes (empty when the
     * driver's header size is 0). No queue changes.
     */
    method TxDirect(qidx: int, payload: seq<bv8>, size: nat, header: seq<bv8>) returns (status: int)
      requires Valid() && qidx in queueSlot && size <= |payload|
      modifies this`calls
      ensures status == ICF_STATUS_SUCCESS
      ensures calls == old(calls) + [Send(PortOf(qidx), header + payload[..size])]
    {
      var frameFullSize := size + |header|;
      var txBuffer := header + payload[..size];
      assert |txBuffer| == frameFullSize;
      calls := calls + [Send(PortOf(qidx), txBuffer)];
      status := ICF_STATUS_SUCCESS;
    }

    /** icf_tx_enqueue: the frame icf_tx_direct would send becomes the tail of queue qidx. */
    method TxEnqueue(qidx: int, payload: seq<bv8>, size: nat, header: seq<bv8>) returns (status: int)
      requires Valid() && qidx in queueSlot && size <= |payload|
      modifies rings[queueSlot[qidx]]
      ensures status == ICF_STATUS_SUCCESS
      ensures Queues() == PushAt(old(Queues()), queueSlot[qidx], Cell(header + payload[..size]))
    {
      var txBuffer := header + payload[..size];
      rings[queueSlot[qidx]].Push(Cell(txBuffer));
      status := ICF_STATUS_SUCCESS;
    }

    /** icf_tx_ctrl_job: pop at most one frame from queue qidx and send exactly its bytes. */
    method TxCtrlJob(qidx: int) returns (status: int)
      requires Valid() && qidx in queueSlot
      modifies this`calls, rings[queueSlot[qidx]]
      ensures status == ICF_STATUS_SUCCESS
      ensures
        var step := TxStep(old(Queues())[queueSlot[qidx]], PortOf(qidx));
        Queues() == old(Queues())[queueSlot[qidx] := step.0] && calls == old(calls) + step.1
    {
      var txcell := rings[queueSlot[qidx]].Pop();
      if txcell.Some? {
        calls := calls + [Send(PortOf(qidx), txcell.value.l2frame)];
      }
      status := ICF_STATUS_SUCCESS;
    }
  }

  /** The table positions 0 .. n-1. */
  function Positions(n: nat): (s: set<int>)
    ensures forall q :: q in s <==> 0 <= q < n
  {
    if n == 0 then {} else Positions(n - 1) + {n - 1}
  }
}
