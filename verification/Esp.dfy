/**
 * The trusted platform interface: the logical flash behind the OTA calls, and the
 * answers the platform gives while one packet is handled.
 *
 * A failing call leaves the flash as it was (also `esp_ota_begin`, which on the real
 * platform may then already have erased the slot), except that ending or aborting a
 * handle retires it whatever the outcome. Using a handle that is not open sets
 * `misused`, which the firmware is then shown never to do.
 */
module Esp {
  import opened Bytes

  /** Largest slot for which `offset + data_length` cannot wrap: 2^32 - 1017. */
  const MAX_SLOT_SIZE: uint32 := 0xFFFF_FC07

  datatype Option<+T> = None | Some(value: T)

  datatype Partition = Partition(slot: nat, size: uint32)

  datatype Flash = Flash(
    slots: map<nat, seq<byte>>,
    writers: map<nat, nat>,
    retired: set<nat>,
    boot: nat,
    misused: bool)

  /** What the platform answers while one packet is handled. */
  datatype Outcome = Outcome(
    partition: Option<Partition>,
    beginOk: bool,
    handle: nat,
    writeOk: bool,
    endOk: bool,
    abortOk: bool,
    sha: Option<seq<byte>>,
    bootOk: bool,
    rollbackPossible: bool,
    rollbackSlot: Option<nat>,
    nonce: seq<byte>,
    info: seq<byte>)

  /** A slot that `Plausible` allows. */
  type SlotSize = n: nat | n <= MAX_SLOT_SIZE as nat witness 0

  /** A platform that grants what it is asked: it has a slot of this size, and reports this digest for an image. */
  datatype Platform = Platform(room: SlotSize, digest: seq<byte>)

  predicate Grants(g: Platform, o: Outcome)
  {
    && o.partition.Some? && o.partition.value.size == g.room && o.beginOk && o.writeOk && o.endOk && o.abortOk
    && o.sha == Some(g.digest) && o.bootOk
  }

  /** Handles are not reused, slots are not absurdly large, nonces have their size. */
  predicate Plausible(o: Outcome, f: Flash)
  {
    && (o.partition.Some? ==> o.partition.value.size <= MAX_SLOT_SIZE)
    && o.handle !in f.writers && o.handle !in f.retired
    && |o.nonce| == 16 && |o.info| <= 1024
  }

  function OtaBegin(f: Flash, slot: nat, handle: nat): Flash
  {
    f.(slots := f.slots[slot := []], writers := f.writers[handle := slot])
  }

  function OtaWrite(f: Flash, handle: nat, data: seq<byte>): Flash
  {
    if handle in f.writers && f.writers[handle] in f.slots then
      var slot := f.writers[handle];
      f.(slots := f.slots[slot := f.slots[slot] + data])
    else f.(misused := true)
  }

  /** `esp_ota_end` and `esp_ota_abort` both retire the handle. */
  function OtaClose(f: Flash, handle: nat): Flash
  {
    if handle in f.writers then f.(writers := f.writers - {handle}, retired := f.retired + {handle})
    else f.(misused := true)
  }

  function SetBoot(f: Flash, slot: nat): Flash { f.(boot := slot) }

  /** A restart closes every handle. */
  function Restarted(f: Flash): Flash
  {
    f.(writers := map[], retired := f.retired + f.writers.Keys)
  }
}
