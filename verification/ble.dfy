/**
 * The firmware update over Bluetooth LE of src/BLE.cpp: the connection
 * callbacks and the write callback of the OTA characteristic, which feeds
 * each packet to the ESP-IDF OTA writer and ends the update at the first
 * packet shorter than a full one.
 *
 * The `esp_ota_*` calls and the characteristic's notify are recorded in the
 * order they are made; whether `esp_ota_set_boot_partition` succeeds is a
 * parameter.
 */
module Ble {

  /** The `STATUS_*` values. */
  const STATUS_CONNECTED := 0
  const STATUS_DISCONNECTED := 4
  const STATUS_UPDATING := 1
  const STATUS_READY := 2

  /** `FULL_PACKET`: the length of every packet but the last. */
  const FULL_PACKET := 512

  /** The reply sent after every write. */
  const TX_DATA: seq<bv8> := [1, 2, 3, 4, 5]

  /** The calls the write callback makes, in order. */
  datatype OtaCall =
    | OtaBegin                        // esp_ota_begin(next update partition)
    | OtaWrite(data: seq<bv8>)        // esp_ota_write
    | OtaEnd                          // esp_ota_end
    | SetBootPartition(ok: bool)      // esp_ota_set_boot_partition, and whether it returned ESP_OK
    | Notify(data: seq<bv8>)          // setValue(data) and notify()

  /** The public fields of `BLE`. */
  datatype OtaState = OtaState(status: int, bytesReceived: int, updateFlag: bool)

  /** The fields of a new `BLE` object (src/BLE.h:32-34). */
  const Initial := OtaState(-1, 0, false)

  /** Whether a packet of `len` bytes is the last one: not empty and not full. */
  predicate IsLast(len: nat)
  {
    len > 0 && len != FULL_PACKET
  }

  /** The state after `otaCallback::onWrite` of a packet of `len` bytes, with `bootOk` the outcome of setting the boot partition. */
  function AfterWrite(s: OtaState, len: nat, bootOk: bool): OtaState
  {
    var started := if !s.updateFlag then s.(updateFlag := true, status := STATUS_UPDATING) else s;
    if len == 0 then started
    else
      var counted := started.(bytesReceived := started.bytesReceived + len);
      if IsLast(len) && bootOk then counted.(status := STATUS_READY) else counted
  }

  /** The calls `onWrite` makes for `rx`, given the flag it found. */
  function WriteCalls(updateFlag: bool, rx: seq<bv8>, bootOk: bool): seq<OtaCall>
  {
    (if !updateFlag then [OtaBegin] else [])
    + (if |rx| == 0 then [] else [OtaWrite(rx)] + (if IsLast(|rx|) then [OtaEnd, SetBootPartition(bootOk)] else []))
    + [Notify(TX_DATA)]
  }

  /** One write, with its status cases spelled out: ready once the last packet is in and bootable, else updating from the first write on. */
  lemma WriteStatus(s: OtaState, len: nat, bootOk: bool)
    ensures AfterWrite(s, len, bootOk).updateFlag
    ensures AfterWrite(s, len, bootOk).bytesReceived == s.bytesReceived + len
    ensures AfterWrite(s, len, bootOk).status ==
              if IsLast(len) && bootOk then STATUS_READY
              else if !s.updateFlag then STATUS_UPDATING
              else s.status
  {
  }

  /**
   * Every write is answered with the same five bytes; the update is begun
   * exactly when the flag was down, and ended exactly at the last packet.
   */
  lemma WriteCallsShape(updateFlag: bool, rx: seq<bv8>, bootOk: bool)
    ensures var c := WriteCalls(updateFlag, rx, bootOk);
            |c| > 0 && c[|c| - 1] == Notify(TX_DATA) && |TX_DATA| == 5 &&
            (OtaBegin in c <==> !updateFlag) && (OtaEnd in c <==> IsLast(|rx|)) &&
            (OtaWrite(rx) in c <==> |rx| > 0)
  {
    var c := WriteCalls(updateFlag, rx, bootOk);
    var b := if !updateFlag then [OtaBegin] else [];
    var w := if |rx| == 0 then [] else [OtaWrite(rx)] + (if IsLast(|rx|) then [OtaEnd, SetBootPartition(bootOk)] else []);
    assert c == b + w + [Notify(TX_DATA)];
  }

  // ---------------------------------------------------------------------
  // A session of writes

  /** A packet: its length and whether setting the boot partition would succeed if it ends the update. */
  datatype Packet = Packet(len: nat, bootOk: bool)

  /** The state after a session of writes, with no connect or disconnect between them. */
  function Upload(s: OtaState, ps: seq<Packet>): OtaState
    decreases |ps|
  {
    if ps == [] then s else Upload(AfterWrite(s, ps[0].len, ps[0].bootOk), ps[1..])
  }

  /** The bytes of a session. */
  function TotalLength(ps: seq<Packet>): nat
    decreases |ps|
  {
    if ps == [] then 0 else ps[0].len + TotalLength(ps[1..])
  }

  /** Whether some packet of the session ends the update with a bootable image. */
  predicate Finishes(ps: seq<Packet>)
  {
    exists k :: 0 <= k < |ps| && IsLast(ps[k].len) && ps[k].bootOk
  }

  /** `bytesReceived` counts every byte of every write. */
  lemma {:induction false} UploadCounts(s: OtaState, ps: seq<Packet>)
    ensures Upload(s, ps).bytesReceived == s.bytesReceived + TotalLength(ps)
    decreases |ps|
  {
    if ps != [] {
      UploadCounts(AfterWrite(s, ps[0].len, ps[0].bootOk), ps[1..]);
    }
  }

  /** `updateFlag` is raised by the first write and never lowered. */
  lemma {:induction false} FlagNeverReset(s: OtaState, ps: seq<Packet>)
    ensures Upload(s, ps).updateFlag <==> s.updateFlag || ps != []
    decreases |ps|
  {
    if ps != [] {
      FlagNeverReset(AfterWrite(s, ps[0].len, ps[0].bootOk), ps[1..]);
    }
  }

  /**
   * A session from a state that is not already ready ends ready exactly
   * when one of its packets ended the update and the boot partition was set.
   */
  lemma {:induction false} ReadyIffFinished(s: OtaState, ps: seq<Packet>)
    requires s.status != STATUS_READY
    ensures Upload(s, ps).status == STATUS_READY <==> Finishes(ps)
    decreases |ps|
  {
    if ps != [] {
      var s1 := AfterWrite(s, ps[0].len, ps[0].bootOk);
      if s1.status == STATUS_READY {
        StaysReady(s1, ps[1..]);
        assert IsLast(ps[0].len) && ps[0].bootOk;
      } else {
        ReadyIffFinished(s1, ps[1..]);
        if Finishes(ps[1..]) {
          var k :| 0 <= k < |ps[1..]| && IsLast(ps[1..][k].len) && ps[1..][k].bootOk;
          assert ps[k + 1] == ps[1..][k];
        }
        if Finishes(ps) {
          var k :| 0 <= k < |ps| && IsLast(ps[k].len) && ps[k].bootOk;
          assert k != 0;
          assert ps[1..][k - 1] == ps[k];
        }
      }
    }
  }

  /** Once ready, later writes keep the status ready. */
  lemma {:induction false} StaysReady(s: OtaState, ps: seq<Packet>)
    requires s.status == STATUS_READY && s.updateFlag
    ensures Upload(s, ps).status == STATUS_READY
    decreases |ps|
  {
    if ps != [] {
      StaysReady(AfterWrite(s, ps[0].len, ps[0].bootOk), ps[1..]);
    }
  }

  // ---------------------------------------------------------------------
  // The object

  /** `BLE`: the fields the callbacks update, and the calls made so far. */
  class BleOta {
    var status: int
    var bytesReceived: int
    var updateFlag: bool
    var calls: seq<OtaCall>

    function State(): OtaState
      reads this
    {
      OtaState(status, bytesReceived, updateFlag)
    }

    /** `BLE()` (src/BLE.h:30-34). */
    constructor ()
      ensures State() == Initial && calls == []
    {
      status := -1;
      bytesReceived := 0;
      updateFlag := false;
      calls := [];
    }

    /** `onConnect` (src/BLE.cpp:25-27). */
    method OnConnect()
      modifies this
      ensures State() == old(State()).(status := STATUS_CONNECTED) && calls == old(calls)
    {
      status := STATUS_CONNECTED;
    }

    /** `onDisconnect` (src/BLE.cpp:29-31). */
    method OnDisconnect()
      modifies this
      ensures State() == old(State()).(status := STATUS_DISCONNECTED) && calls == old(calls)
    {
      status := STATUS_DISCONNECTED;
    }

    /** `otaCallback::onWrite` (src/BLE.cpp:42-75) for the written value `rx`. */
    method OnWrite(rx: seq<bv8>, bootOk: bool)
      modifies this
      ensures State() == AfterWrite(old(State()), |rx|, bootOk)
      ensures calls == old(calls) + WriteCalls(old(updateFlag), rx, bootOk)
    {
      if !updateFlag {
        calls := calls + [OtaBegin];
        updateFlag := true;
        status := STATUS_UPDATING;
      }
      if |rx| > 0 {
        calls := calls + [OtaWrite(rx)];
        bytesReceived := bytesReceived + |rx|;
        if |rx| != FULL_PACKET {
          calls := calls + [OtaEnd, SetBootPartition(bootOk)];
          if bootOk {
            status := STATUS_READY;
          }
        }
      }
      calls := calls + [Notify(TX_DATA)];
    }
  }
}
