/**
 * The compiled-in routing configuration of the ICF: the port, queue and
 * mapping tables of the EGSE and ESPS system variants, the selectors that
 * pick them, the linear-search lookups over the mapping table and the
 * frame dispatcher.
 *
 * The numeric values of the port, queue, driver, system-type and CAN
 * identifiers come from icf_trx_ctrl.h, which is not part of this model;
 * the values below are placeholders. They keep the identifiers of each
 * kind distinct, which is all the tables and init rely on; they also meet
 * PositionalHeaderValues and SentinelIsNoQueue, which the members that
 * state them as preconditions rely on.
 */
module IcfTables {
  import opened IcfUtility

  const ICF_SYSTEM_TYPE_EGSE: int := 0
  const ICF_SYSTEM_TYPE_ESPS: int := 1

  const HW_PORT0: int := 0
  const HW_PORT1: int := 1
  const HW_PORT2: int := 2
  const HW_PORT3: int := 3
  const HW_PORT4: int := 4
  const HW_PORT5: int := 5
  const HW_PORT6: int := 6
  const HW_PORT7: int := 7
  const HW_PORT8: int := 8

  const EGSE_TVC_SW_QIDX: int := 0
  const EGSE_IMU01_SW_QIDX: int := 1
  const EGSE_RATETBL_X_SW_QIDX: int := 2
  const EGSE_RATETBL_Y_SW_QIDX: int := 3
  const EGSE_RATETBL_Z_SW_QIDX: int := 4
  const EGSE_IMU02_SW_QIDX: int := 5
  const EGSE_GPSR01_SW_QIDX: int := 6
  const EGSE_GPSR02_SW_QIDX: int := 7
  const EGSE_FLIGHT_COMPUTER_SW_QIDX: int := 8
  /** The dispatcher's "drop this frame" sentinel. */
  const EGSE_EMPTY_SW_QIDX: int := 9

  const ESPS_TVC_SW_QIDX: int := 0
  const ESPS_GNC_SW_QIDX: int := 1

  const ICF_DRIVERS_ID0: int := 0
  const ICF_DRIVERS_ID1: int := 1
  const ICF_DRIVERS_ID2: int := 2

  /** Build switch that enables the RS-422 ports of the hardware-in-the-loop rig. */
  const HIL_INTF: int := 1
  const EMPTY_NETPORT: int := 0

  /** sizeof of the table entry structs; any positive size gives the same entry counts. */
  const SIZEOF_MAPPING: int := 12
  const SIZEOF_CTRL_PORT: int := 48
  const SIZEOF_CTRL_QUEUE: int := 64

  datatype DevType = CanDevice | Rs422Device | EthernetDevice
  datatype Direction = DirRx | DirTx

  /** struct icf_mapping, fields in declaration order. */
  datatype Mapping = Mapping(hwPortIdx: int, swQueue: int, driverId: int)

  /** The configuration part of struct icf_ctrl_port (driver ops and state live in the control block). */
  datatype CtrlPort = CtrlPort(enable: int, hwPortIdx: int, ifname: string, netport: int, devType: DevType)

  /** The configuration part of struct icf_ctrl_queue; port is the position of the bound entry in the same variant's port table. */
  datatype CtrlQueue = CtrlQueue(enable: int, queueIdx: int, direction: Direction, port: nat)

  const EgseMapTbl: seq<Mapping> := [
    Mapping(HW_PORT0, EGSE_TVC_SW_QIDX, ICF_DRIVERS_ID0),
    Mapping(HW_PORT1, EGSE_IMU01_SW_QIDX, ICF_DRIVERS_ID1),
    Mapping(HW_PORT2, EGSE_RATETBL_X_SW_QIDX, ICF_DRIVERS_ID1),
    Mapping(HW_PORT3, EGSE_RATETBL_Y_SW_QIDX, ICF_DRIVERS_ID1),
    Mapping(HW_PORT4, EGSE_RATETBL_Z_SW_QIDX, ICF_DRIVERS_ID1),
    Mapping(HW_PORT5, EGSE_IMU02_SW_QIDX, ICF_DRIVERS_ID1),
    Mapping(HW_PORT6, EGSE_GPSR01_SW_QIDX, ICF_DRIVERS_ID1),
    Mapping(HW_PORT7, EGSE_GPSR02_SW_QIDX, ICF_DRIVERS_ID1),
    Mapping(HW_PORT8, EGSE_FLIGHT_COMPUTER_SW_QIDX, ICF_DRIVERS_ID2)
  ]

  const EgsePorts: seq<CtrlPort> := [
    CtrlPort(1, HW_PORT0, "can0", EMPTY_NETPORT, CanDevice),
    CtrlPort(HIL_INTF, HW_PORT1, "/dev/ttyAP0", EMPTY_NETPORT, Rs422Device),
    CtrlPort(HIL_INTF, HW_PORT2, "/dev/ttyAP1", EMPTY_NETPORT, Rs422Device),
    CtrlPort(HIL_INTF, HW_PORT3, "/dev/ttyAP2", EMPTY_NETPORT, Rs422Device),
    CtrlPort(HIL_INTF, HW_PORT4, "/dev/ttyAP3", EMPTY_NETPORT, Rs422Device),
    CtrlPort(0, HW_PORT5, "/dev/ttyAP4", EMPTY_NETPORT, Rs422Device),
    CtrlPort(0, HW_PORT6, "/dev/ttyAP5", EMPTY_NETPORT, Rs422Device),
    CtrlPort(HIL_INTF, HW_PORT7, "/dev/ttyAP6", EMPTY_NETPORT, Rs422Device),
    CtrlPort(1, HW_PORT8, "egse_server", 8700, EthernetDevice)
  ]

  const EgseQueues: seq<CtrlQueue> := [
    CtrlQueue(1, EGSE_TVC_SW_QIDX, DirRx, 0),
    CtrlQueue(1, EGSE_IMU01_SW_QIDX, DirTx, 1),
    CtrlQueue(1, EGSE_RATETBL_X_SW_QIDX, DirTx, 2),
    CtrlQueue(1, EGSE_RATETBL_Y_SW_QIDX, DirTx, 3),
    CtrlQueue(1, EGSE_RATETBL_Z_SW_QIDX, DirTx, 4),
    CtrlQueue(1, EGSE_IMU02_SW_QIDX, DirTx, 5),
    CtrlQueue(1, EGSE_GPSR01_SW_QIDX, DirTx, 6),
    CtrlQueue(1, EGSE_GPSR02_SW_QIDX, DirTx, 7),
    CtrlQueue(1, EGSE_FLIGHT_COMPUTER_SW_QIDX, DirTx, 8)
  ]

  /**
   * The ESPS mapping table as intended: port first, like every EGSE entry,
   * pairing each ESPS port with the queue bound to it in EspsQueues. The
   * table as written is EspsMapTblAsWritten below.
   */
  const EspsMapTbl: seq<Mapping> := [
    Mapping(HW_PORT0, ESPS_TVC_SW_QIDX, ICF_DRIVERS_ID0),
    Mapping(HW_PORT8, ESPS_GNC_SW_QIDX, ICF_DRIVERS_ID2)
  ]

  const EspsPorts: seq<CtrlPort> := [
    CtrlPort(1, HW_PORT0, "can1", EMPTY_NETPORT, CanDevice),
    CtrlPort(1, HW_PORT8, "127.0.0.1", 8700, EthernetDevice)
  ]

  const EspsQueues: seq<CtrlQueue> := [
    CtrlQueue(1, ESPS_TVC_SW_QIDX, DirTx, 0),
    CtrlQueue(1, ESPS_GNC_SW_QIDX, DirRx, 1)
  ]

  // ---------------------------------------------------------------------
  // Variant selectors: each returns the table and its size in bytes.

  function ChooseMapTbl(systemType: int): (r: (seq<Mapping>, int))
    ensures r.0 == MapTable(systemType)
    ensures 0 <= r.1 <= INT32_MAX
    ensures GetArrNum(r.1, SIZEOF_MAPPING) == |r.0|
  {
    GetArrNumOfWholeArray(|EgseMapTbl|, SIZEOF_MAPPING);
    GetArrNumOfWholeArray(|EspsMapTbl|, SIZEOF_MAPPING);
    if systemType == ICF_SYSTEM_TYPE_EGSE then (EgseMapTbl, |EgseMapTbl| * SIZEOF_MAPPING)
    else if systemType == ICF_SYSTEM_TYPE_ESPS then (EspsMapTbl, |EspsMapTbl| * SIZEOF_MAPPING)
    else (EgseMapTbl, |EgseMapTbl| * SIZEOF_MAPPING)
  }

  function ChooseSwQueueTbl(systemType: int): (r: (seq<CtrlQueue>, int))
    ensures r.0 == QueueTable(systemType)
    ensures 0 <= r.1 <= INT32_MAX
    ensures GetArrNum(r.1, SIZEOF_CTRL_QUEUE) == |r.0|
  {
    GetArrNumOfWholeArray(|EgseQueues|, SIZEOF_CTRL_QUEUE);
    GetArrNumOfWholeArray(|EspsQueues|, SIZEOF_CTRL_QUEUE);
    if systemType == ICF_SYSTEM_TYPE_EGSE then (EgseQueues, |EgseQueues| * SIZEOF_CTRL_QUEUE)
    else if systemType == ICF_SYSTEM_TYPE_ESPS then (EspsQueues, |EspsQueues| * SIZEOF_CTRL_QUEUE)
    else (EgseQueues, |EgseQueues| * SIZEOF_CTRL_QUEUE)
  }

  function ChooseHwPortTbl(systemType: int): (r: (seq<CtrlPort>, int))
    ensures r.0 == PortTable(systemType)
    ensures 0 <= r.1 <= INT32_MAX
    ensures GetArrNum(r.1, SIZEOF_CTRL_PORT) == |r.0|
  {
    GetArrNumOfWholeArray(|EgsePorts|, SIZEOF_CTRL_PORT);
    GetArrNumOfWholeArray(|EspsPorts|, SIZEOF_CTRL_PORT);
    if systemType == ICF_SYSTEM_TYPE_EGSE then (EgsePorts, |EgsePorts| * SIZEOF_CTRL_PORT)
    else if systemType == ICF_SYSTEM_TYPE_ESPS then (EspsPorts, |EspsPorts| * SIZEOF_CTRL_PORT)
    else (EgsePorts, |EgsePorts| * SIZEOF_CTRL_PORT)
  }

  function MapTable(systemType: int): seq<Mapping> {
    if systemType == ICF_SYSTEM_TYPE_ESPS then EspsMapTbl else EgseMapTbl
  }

  function QueueTable(systemType: int): seq<CtrlQueue> {
    if systemType == ICF_SYSTEM_TYPE_ESPS then EspsQueues else EgseQueues
  }

  function PortTable(systemType: int): seq<CtrlPort> {
    if systemType == ICF_SYSTEM_TYPE_ESPS then EspsPorts else EgsePorts
  }

  /**
   * The three selectors always agree on the variant: ESPS gets the ESPS
   * tables, EGSE and every unknown system type get the EGSE tables, and the
   * size reported is that of the whole table.
   */
  lemma SelectorsChooseVariant(systemType: int)
    ensures systemType == ICF_SYSTEM_TYPE_ESPS ==>
      ChooseMapTbl(systemType).0 == EspsMapTbl && ChooseSwQueueTbl(systemType).0 == EspsQueues
      && ChooseHwPortTbl(systemType).0 == EspsPorts
    ensures systemType != ICF_SYSTEM_TYPE_ESPS ==>
      ChooseMapTbl(systemType).0 == EgseMapTbl && ChooseSwQueueTbl(systemType).0 == EgseQueues
      && ChooseHwPortTbl(systemType).0 == EgsePorts
    ensures ChooseMapTbl(systemType).1 == |ChooseMapTbl(systemType).0| * SIZEOF_MAPPING
    ensures ChooseSwQueueTbl(systemType).1 == |ChooseSwQueueTbl(systemType).0| * SIZEOF_CTRL_QUEUE
    ensures ChooseHwPortTbl(systemType).1 == |ChooseHwPortTbl(systemType).0| * SIZEOF_CTRL_PORT
  {
  }

  // ---------------------------------------------------------------------
  // Consistency of the tables of one variant

  predicate DistinctQueueIdx(qt: seq<CtrlQueue>) {
    forall i, j :: 0 <= i < j < |qt| ==> qt[i].queueIdx != qt[j].queueIdx
  }

  predicate DistinctHwPortIdx(pt: seq<CtrlPort>) {
    forall i, j :: 0 <= i < j < |pt| ==> pt[i].hwPortIdx != pt[j].hwPortIdx
  }

  /**
   * The tables chosen for any system type fit together: queue and port
   * indices are unique, and every queue is bound to an entry of the same
   * variant's port table. This rests only on the identifiers of each kind
   * being distinct.
   */
  lemma TablesConsistent(systemType: int)
    ensures DistinctQueueIdx(QueueTable(systemType))
    ensures DistinctHwPortIdx(PortTable(systemType))
    ensures forall i :: 0 <= i < |QueueTable(systemType)| ==> QueueTable(systemType)[i].port < |PortTable(systemType)|
  {
  }

  /** The port field of m is the index of a port of pt. */
  predicate NamesPort(pt: seq<CtrlPort>, m: Mapping) {
    exists p :: 0 <= p < |pt| && pt[p].hwPortIdx == m.hwPortIdx
  }

  /** The queue field of m is the index of a queue of qt. */
  predicate NamesQueue(qt: seq<CtrlQueue>, m: Mapping) {
    exists q :: 0 <= q < |qt| && qt[q].queueIdx == m.swQueue
  }

  /** Every entry of mt names a port of pt and a queue of qt. */
  predicate EntriesNameVariant(mt: seq<Mapping>, pt: seq<CtrlPort>, qt: seq<CtrlQueue>) {
    forall i :: 0 <= i < |mt| ==> NamesPort(pt, mt[i]) && NamesQueue(qt, mt[i])
  }

  /**
   * Mapping entry k names the port at position k and the queue at position
   * k, and that queue is bound to that port, in both variants.
   */
  lemma EntriesPairedByPosition(systemType: int)
    ensures |MapTable(systemType)| == |PortTable(systemType)| == |QueueTable(systemType)|
    ensures forall k :: 0 <= k < |MapTable(systemType)| ==>
      MapTable(systemType)[k].hwPortIdx == PortTable(systemType)[k].hwPortIdx
      && MapTable(systemType)[k].swQueue == QueueTable(systemType)[k].queueIdx
      && QueueTable(systemType)[k].port == k
  {
    if systemType == ICF_SYSTEM_TYPE_ESPS {
      assert EspsMapTbl[0].hwPortIdx == EspsPorts[0].hwPortIdx && EspsMapTbl[0].swQueue == EspsQueues[0].queueIdx;
      assert EspsMapTbl[1].hwPortIdx == EspsPorts[1].hwPortIdx && EspsMapTbl[1].swQueue == EspsQueues[1].queueIdx;
    } else {
      forall k | 0 <= k < |EgseMapTbl|
        ensures EgseMapTbl[k].hwPortIdx == EgsePorts[k].hwPortIdx && EgseMapTbl[k].swQueue == EgseQueues[k].queueIdx
          && EgseQueues[k].port == k
      {
      }
    }
  }

  /**
   * The routing entries of the chosen variant name only its own ports and
   * queues, and every one of its ports and queues is a key of the mapping
   * table, so no lookup for them runs off the table.
   */
  lemma EveryQueueAndPortMapped(systemType: int)
    ensures EntriesNameVariant(MapTable(systemType), PortTable(systemType), QueueTable(systemType))
    ensures forall k :: 0 <= k < |PortTable(systemType)| ==>
      KeyPresent(MapTable(systemType), PortKey(PortTable(systemType)[k].hwPortIdx))
    ensures forall k :: 0 <= k < |QueueTable(systemType)| ==>
      KeyPresent(MapTable(systemType), QueueKey(QueueTable(systemType)[k].queueIdx))
  {
    var mt, pt, qt := MapTable(systemType), PortTable(systemType), QueueTable(systemType);
    EntriesPairedByPosition(systemType);
    forall i | 0 <= i < |mt|
      ensures NamesPort(pt, mt[i]) && NamesQueue(qt, mt[i])
    {
      assert pt[i].hwPortIdx == mt[i].hwPortIdx && qt[i].queueIdx == mt[i].swQueue;
    }
    forall k | 0 <= k < |pt|
      ensures KeyPresent(mt, PortKey(pt[k].hwPortIdx))
    {
      assert Matches(mt[k], PortKey(pt[k].hwPortIdx));
    }
    forall k | 0 <= k < |qt|
      ensures KeyPresent(mt, QueueKey(qt[k].queueIdx))
    {
      assert Matches(mt[k], QueueKey(qt[k].queueIdx));
    }
  }

  /** The driver lookup by a port's own index finds the mapping entry listed with that port. */
  lemma PortEntryMapped(systemType: int, k: nat)
    requires k < |PortTable(systemType)|
    ensures k < |MapTable(systemType)|
    ensures KeyPresent(MapTable(systemType), PortKey(PortTable(systemType)[k].hwPortIdx))
    ensures FirstMatch(MapTable(systemType), PortKey(PortTable(systemType)[k].hwPortIdx)) == MapTable(systemType)[k]
  {
    EntriesPairedByPosition(systemType);
    LookupsFindEntry(systemType, k);
  }

  /**
   * The driver id init binds to the port at position k, looked up by the
   * port's own index: the driver of the entry listed with that port.
   */
  function PortDriverId(systemType: int, k: nat): (id: int)
    requires k < |PortTable(systemType)|
    ensures k < |MapTable(systemType)| && id == MapTable(systemType)[k].driverId
  {
    PortEntryMapped(systemType, k);
    FirstMatch(MapTable(systemType), PortKey(PortTable(systemType)[k].hwPortIdx)).driverId
  }

  // ---------------------------------------------------------------------
  // The ESPS mapping table and init's driver lookup as written

  /**
   * The ESPS mapping table as its initialiser is written: each entry starts
   * with the queue index, so the queue index lands in the port field and
   * the port in the queue field.
   */
  const EspsMapTblAsWritten: seq<Mapping> := [
    Mapping(ESPS_TVC_SW_QIDX, HW_PORT0, ICF_DRIVERS_ID0),
    Mapping(ESPS_GNC_SW_QIDX, HW_PORT8, ICF_DRIVERS_ID2)
  ]

  function MapTableAsWritten(systemType: int): seq<Mapping> {
    if systemType == ICF_SYSTEM_TYPE_ESPS then EspsMapTblAsWritten else EgseMapTbl
  }

  /**
   * Header values under which init as written binds the intended drivers:
   * it looks a port's driver up by the port's table position k, so the port
   * field of mapping entry k must hold k. That field is HW_PORTk in EGSE and
   * the queue index in the as-written ESPS table.
   */
  predicate PositionalHeaderValues() {
    HW_PORT0 == 0 && HW_PORT1 == 1 && HW_PORT2 == 2 && HW_PORT3 == 3 && HW_PORT4 == 4
    && HW_PORT5 == 5 && HW_PORT6 == 6 && HW_PORT7 == 7 && HW_PORT8 == 8
    && ESPS_TVC_SW_QIDX == 0 && ESPS_GNC_SW_QIDX == 1
  }

  /**
   * For any mapping table with unique keys, the lookup of position k by
   * port index finds entry k exactly when entry k holds k in its port field.
   */
  lemma PositionLookupFindsEntry(tbl: seq<Mapping>, k: nat)
    requires UniqueMapKeys(tbl) && k < |tbl|
    ensures (KeyPresent(tbl, PortKey(k)) && FirstMatch(tbl, PortKey(k)) == tbl[k]) <==> tbl[k].hwPortIdx == k
  {
    FindFirstIsFirst(tbl, PortKey(k));
    if tbl[k].hwPortIdx == k {
      assert Matches(tbl[k], PortKey(k));
    }
  }

  /** init's driver lookup as written: by table position, in the as-written table. */
  function PortDriverIdAsWritten(systemType: int, k: nat): (id: int)
    requires PositionalHeaderValues()
    requires k < |PortTable(systemType)|
    ensures k < |MapTableAsWritten(systemType)| && id == MapTableAsWritten(systemType)[k].driverId
  {
    assert UniqueMapKeys(MapTableAsWritten(systemType));
    PositionLookupFindsEntry(MapTableAsWritten(systemType), k);
    FirstMatch(MapTableAsWritten(systemType), PortKey(k)).driverId
  }

  /**
   * The swapped ESPS fields and the by-position lookup cancel: with the
   * positional header values, init as written binds every port the driver
   * the intended lookup binds.
   */
  lemma AsWrittenInitBindsIntendedDrivers(systemType: int, k: nat)
    requires PositionalHeaderValues()
    requires k < |PortTable(systemType)|
    ensures PortDriverIdAsWritten(systemType, k) == PortDriverId(systemType, k)
  {
  }

  /**
   * The as-written ESPS table breaks the routing invariant: with the
   * positional header values its second entry names no ESPS port and no
   * ESPS queue, and the GNC queue and the Ethernet port are keys of no
   * entry, so icf_qidx_to_pidx and icf_pidx_to_qidx scan past the table
   * for them, while icf_qidx_to_pidx takes the port HW_PORT8 for a queue
   * index and answers ESPS_GNC_SW_QIDX.
   */
  lemma EspsAsWrittenMissesGncEntry()
    requires PositionalHeaderValues()
    ensures !EntriesNameVariant(EspsMapTblAsWritten, EspsPorts, EspsQueues)
    ensures FindFirst(EspsMapTblAsWritten, QueueKey(ESPS_GNC_SW_QIDX)) == |EspsMapTblAsWritten|
    ensures FindFirst(EspsMapTblAsWritten, PortKey(HW_PORT8)) == |EspsMapTblAsWritten|
    ensures FindFirst(EspsMapTblAsWritten, QueueKey(HW_PORT8)) == 1
      && EspsMapTblAsWritten[1].hwPortIdx == ESPS_GNC_SW_QIDX
  {
    assert !NamesPort(EspsPorts, EspsMapTblAsWritten[1]);
    FindFirstIsFirst(EspsMapTblAsWritten, QueueKey(ESPS_GNC_SW_QIDX));
    FindFirstIsFirst(EspsMapTblAsWritten, PortKey(HW_PORT8));
  }

  /** The header value the ESPS receive path relies on: the dispatcher's sentinel is no queue index. */
  predicate SentinelIsNoQueue() {
    (forall i :: 0 <= i < |EgseQueues| ==> EgseQueues[i].queueIdx != EGSE_EMPTY_SW_QIDX)
    && (forall i :: 0 <= i < |EspsQueues| ==> EspsQueues[i].queueIdx != EGSE_EMPTY_SW_QIDX)
  }

  // ---------------------------------------------------------------------
  // Lookups between port, queue and driver id

  datatype Key = PortKey(pidx: int) | QueueKey(qidx: int)

  predicate Matches(m: Mapping, k: Key) {
    match k
    case PortKey(p) => m.hwPortIdx == p
    case QueueKey(q) => m.swQueue == q
  }

  predicate KeyPresent(tbl: seq<Mapping>, k: Key) {
    exists i :: 0 <= i < |tbl| && Matches(tbl[i], k)
  }

  /** Position of the first entry that matches k, or |tbl| when none does. */
  function FindFirst(tbl: seq<Mapping>, k: Key): (i: nat)
    ensures i <= |tbl|
  {
    if |tbl| == 0 then 0
    else if Matches(tbl[0], k) then 0
    else 1 + FindFirst(tbl[1..], k)
  }

  /** FindFirst finds the first match, and finds one exactly when the key is present. */
  lemma {:induction false} FindFirstIsFirst(tbl: seq<Mapping>, k: Key)
    ensures FindFirst(tbl, k) < |tbl| ==> Matches(tbl[FindFirst(tbl, k)], k)
    ensures forall j :: 0 <= j < FindFirst(tbl, k) ==> !Matches(tbl[j], k)
    ensures FindFirst(tbl, k) < |tbl| <==> KeyPresent(tbl, k)
  {
    if |tbl| > 0 && !Matches(tbl[0], k) {
      FindFirstIsFirst(tbl[1..], k);
      assert forall j :: 1 <= j < |tbl| ==> tbl[j] == tbl[1..][j - 1];
      if KeyPresent(tbl, k) {
        var j :| 0 <= j < |tbl| && Matches(tbl[j], k);
        assert Matches(tbl[1..][j - 1], k);
      }
    }
  }

  /** The first entry of tbl that matches k. */
  function FirstMatch(tbl: seq<Mapping>, k: Key): Mapping
    requires KeyPresent(tbl, k)
  {
    FindFirstIsFirst(tbl, k);
    tbl[FindFirst(tbl, k)]
  }

  /** The scanning loop shared by the four lookups. */
  method ScanMapTbl(systemType: int, k: Key) returns (idx: nat)
    requires KeyPresent(MapTable(systemType), k)
    ensures idx == FindFirst(MapTable(systemType), k) && idx < |MapTable(systemType)|
  {
    var tbl, tblSize := ChooseMapTbl(systemType).0, ChooseMapTbl(systemType).1;
    FindFirstIsFirst(tbl, k);
    idx := 0;
    while idx < GetArrNum(tblSize, SIZEOF_MAPPING)
      invariant idx <= FindFirst(tbl, k)
    {
      if Matches(tbl[idx], k) {
        break;
      }
      idx := idx + 1;
    }
  }

  method QidxToDriversId(qidx: int, systemType: int) returns (r: int)
    requires KeyPresent(MapTable(systemType), QueueKey(qidx))
    ensures r == FirstMatch(MapTable(systemType), QueueKey(qidx)).driverId
  {
    var idx := ScanMapTbl(systemType, QueueKey(qidx));
    r := MapTable(systemType)[idx].driverId;
  }

  method PidxToDriversId(pidx: int, systemType: int) returns (r: int)
    requires KeyPresent(MapTable(systemType), PortKey(pidx))
    ensures r == FirstMatch(MapTable(systemType), PortKey(pidx)).driverId
  {
    var idx := ScanMapTbl(systemType, PortKey(pidx));
    r := MapTable(systemType)[idx].driverId;
  }

  method PidxToQidx(pidx: int, systemType: int) returns (r: int)
    requires KeyPresent(MapTable(systemType), PortKey(pidx))
    ensures r == FirstMatch(MapTable(systemType), PortKey(pidx)).swQueue
  {
    var idx := ScanMapTbl(systemType, PortKey(pidx));
    r := MapTable(systemType)[idx].swQueue;
  }

  method QidxToPidx(qidx: int, systemType: int) returns (r: int)
    requires KeyPresent(MapTable(systemType), QueueKey(qidx))
    ensures r == FirstMatch(MapTable(systemType), QueueKey(qidx)).hwPortIdx
  {
    var idx := ScanMapTbl(systemType, QueueKey(qidx));
    r := MapTable(systemType)[idx].hwPortIdx;
  }

  /** No two entries of a mapping table share a port index or a queue index. */
  predicate UniqueMapKeys(tbl: seq<Mapping>) {
    forall i, j :: 0 <= i < j < |tbl| ==> tbl[i].hwPortIdx != tbl[j].hwPortIdx && tbl[i].swQueue != tbl[j].swQueue
  }

  lemma MapKeysUnique(systemType: int)
    ensures UniqueMapKeys(MapTable(systemType))
  {
    if systemType == ICF_SYSTEM_TYPE_ESPS {
      assert UniqueMapKeys(EspsMapTbl);
    } else {
      assert UniqueMapKeys(EgseMapTbl);
    }
  }

  /**
   * In the chosen mapping table, looking up an entry's port index or its
   * queue index finds that same entry.
   */
  lemma LookupsFindEntry(systemType: int, i: nat)
    requires i < |MapTable(systemType)|
    ensures KeyPresent(MapTable(systemType), PortKey(MapTable(systemType)[i].hwPortIdx))
      && FirstMatch(MapTable(systemType), PortKey(MapTable(systemType)[i].hwPortIdx)) == MapTable(systemType)[i]
    ensures KeyPresent(MapTable(systemType), QueueKey(MapTable(systemType)[i].swQueue))
      && FirstMatch(MapTable(systemType), QueueKey(MapTable(systemType)[i].swQueue)) == MapTable(systemType)[i]
  {
    var tbl := MapTable(systemType);
    MapKeysUnique(systemType);
    assert Matches(tbl[i], PortKey(tbl[i].hwPortIdx)) && Matches(tbl[i], QueueKey(tbl[i].swQueue));
    FindFirstIsFirst(tbl, PortKey(tbl[i].hwPortIdx));
    FindFirstIsFirst(tbl, QueueKey(tbl[i].swQueue));
  }

  /** icf_qidx_to_pidx undoes icf_pidx_to_qidx, for every port index the mapping table knows. */
  lemma PortQueueRoundTrip(systemType: int, pidx: int)
    requires KeyPresent(MapTable(systemType), PortKey(pidx))
    ensures KeyPresent(MapTable(systemType), QueueKey(FirstMatch(MapTable(systemType), PortKey(pidx)).swQueue))
    ensures FirstMatch(MapTable(systemType), QueueKey(FirstMatch(MapTable(systemType), PortKey(pidx)).swQueue)).hwPortIdx == pidx
  {
    var tbl := MapTable(systemType);
    FindFirstIsFirst(tbl, PortKey(pidx));
    LookupsFindEntry(systemType, FindFirst(tbl, PortKey(pidx)));
  }

  /** icf_pidx_to_qidx undoes icf_qidx_to_pidx, for every queue index the mapping table knows. */
  lemma QueuePortRoundTrip(systemType: int, qidx: int)
    requires KeyPresent(MapTable(systemType), QueueKey(qidx))
    ensures KeyPresent(MapTable(systemType), PortKey(FirstMatch(MapTable(systemType), QueueKey(qidx)).hwPortIdx))
    ensures FirstMatch(MapTable(systemType), PortKey(FirstMatch(MapTable(systemType), QueueKey(qidx)).hwPortIdx)).swQueue == qidx
  {
    var tbl := MapTable(systemType);
    FindFirstIsFirst(tbl, QueueKey(qidx));
    LookupsFindEntry(systemType, FindFirst(tbl, QueueKey(qidx)));
  }

  // ---------------------------------------------------------------------
  // Frame dispatcher

  const FC2TVC_III_NO1: bv32 := 0x101
  const FC2TVC_III_NO2: bv32 := 0x102
  const FC2TVC_II_NO1: bv32 := 0x201
  const FC2TVC_II_NO2: bv32 := 0x202
  const FC2VALVE_III_NO1: bv32 := 0x111
  const FC2RCS_III: bv32 := 0x112
  const FC2ORDNANCE_FAIRING_III: bv32 := 0x113
  const FC2VALVE_II_NO1: bv32 := 0x211
  const FC2ORDNANCE_SEPARATION_II: bv32 := 0x212

  predicate IsTvcCommand(id: bv32) {
    id == FC2TVC_III_NO1 || id == FC2TVC_III_NO2 || id == FC2TVC_II_NO1 || id == FC2TVC_II_NO2
  }

  predicate IsValveOrdnanceCommand(id: bv32) {
    id == FC2VALVE_III_NO1 || id == FC2RCS_III || id == FC2ORDNANCE_FAIRING_III
    || id == FC2VALVE_II_NO1 || id == FC2ORDNANCE_SEPARATION_II
  }

  /** can_id, the first field of struct can_frame, read in host order. */
  function CanId(rxframe: seq<bv8>): bv32
    requires |rxframe| >= 4
  {
    LeWord(rxframe, 0)
  }

  /**
   * icf_dispatch_rx_frame: the queue an inbound frame goes to. It never
   * fails: the result is the empty sentinel or an inbound queue of the
   * variant whose tables the control block uses.
   */
  function DispatchRxFrame(systemType: int, rxframe: seq<bv8>): (qidx: int)
    requires systemType != ICF_SYSTEM_TYPE_ESPS ==> |rxframe| >= 4
    ensures qidx == EGSE_EMPTY_SW_QIDX
      || exists i :: 0 <= i < |QueueTable(systemType)| && QueueTable(systemType)[i].queueIdx == qidx
                     && QueueTable(systemType)[i].direction == DirRx
  {
    if systemType == ICF_SYSTEM_TYPE_ESPS then
      assert QueueTable(systemType)[1] == CtrlQueue(1, ESPS_GNC_SW_QIDX, DirRx, 1);
      ESPS_GNC_SW_QIDX
    else
      var id := CanId(rxframe);
      if IsTvcCommand(id) then
        assert QueueTable(systemType)[0] == CtrlQueue(1, EGSE_TVC_SW_QIDX, DirRx, 0);
        EGSE_TVC_SW_QIDX
      else if IsValveOrdnanceCommand(id) then EGSE_EMPTY_SW_QIDX
      else EGSE_EMPTY_SW_QIDX
  }

  /** The three outcomes of dispatch, as a function of the variant and the CAN id only. */
  lemma DispatchOutcomes(systemType: int, rxframe: seq<bv8>)
    requires systemType != ICF_SYSTEM_TYPE_ESPS ==> |rxframe| >= 4
    ensures systemType == ICF_SYSTEM_TYPE_ESPS ==> DispatchRxFrame(systemType, rxframe) == ESPS_GNC_SW_QIDX
    ensures systemType != ICF_SYSTEM_TYPE_ESPS ==>
      (DispatchRxFrame(systemType, rxframe) == EGSE_TVC_SW_QIDX <==> IsTvcCommand(CanId(rxframe)))
    ensures systemType != ICF_SYSTEM_TYPE_ESPS && !IsTvcCommand(CanId(rxframe)) ==>
      DispatchRxFrame(systemType, rxframe) == EGSE_EMPTY_SW_QIDX
  {
  }

  /**
   * Dispatch looks at nothing but the first four bytes of the frame, and
   * at nothing at all in the ESPS variant.
   */
  lemma DispatchReadsOnlyCanId(systemType: int, f1: seq<bv8>, f2: seq<bv8>)
    requires |f1| >= 4 && |f2| >= 4
    requires systemType == ICF_SYSTEM_TYPE_ESPS || f1[..4] == f2[..4]
    ensures DispatchRxFrame(systemType, f1) == DispatchRxFrame(systemType, f2)
  {
    if systemType != ICF_SYSTEM_TYPE_ESPS {
      LeWordInjective(f1, 0, f2, 0);
      assert f1[0..4] == f1[..4];
      assert f2[0..4] == f2[..4];
    }
  }
}
