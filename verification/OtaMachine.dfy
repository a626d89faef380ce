/** The OTA transfer machine of `ota_manager.c` as functions of its state. */
module OtaMachine {
  import opened Bytes
  import opened Codes
  import opened Esp

  const SHA256_SIZE: nat := 32
  const BEGIN_PAYLOAD_SIZE: nat := 36
  const DATA_HEADER_SIZE: nat := 8
  const MAX_CHUNK_DATA_SIZE: nat := 1016

  /** `lastChunk` is the used part of the remembered chunk buffer. */
  datatype State = State(
    active: bool,
    firmwareSize: uint32,
    bytesReceived: uint32,
    lastOffset: uint32,
    lastChunk: seq<byte>,
    expected: seq<byte>,
    handle: nat,
    slot: nat,
    flash: Flash)

  /** The cleared state, and the state after a restart. */
  function Cleared(f: Flash): State { State(false, 0, 0, 0, [], [], 0, 0, f) }

  datatype Result = Result(state: State, error: byte)

  /** uint32 addition. */
  function Add32(a: uint32, b: uint32): uint32 { (a as int + b as int) % 0x1_0000_0000 }

  function Begin(s: State, payload: seq<byte>, o: Outcome): Result
  {
    if s.active then Result(s, ERR_OTA_ALREADY_STARTED)
    else if |payload| != BEGIN_PAYLOAD_SIZE then Result(s, ERR_INVALID_LENGTH)
    else
      var size := ReadLe32(payload, 0);
      if size == 0 then Result(s, ERR_OTA_SIZE_ERROR)
      else if o.partition.None? then Result(s, ERR_OTA_INVALID_IMAGE)
      else if size > o.partition.value.size then Result(s, ERR_OTA_SIZE_ERROR)
      else if !o.beginOk then Result(s, ERR_OTA_FLASH_ERROR)
      else
        var slot := o.partition.value.slot;
        Result(State(true, size, 0, 0, [], payload[4..], o.handle, slot, OtaBegin(s.flash, slot, o.handle)), ERR_OK)
  }

  function Abort(s: State, o: Outcome): Result
  {
    if !s.active then Result(s, ERR_OTA_NOT_STARTED)
    else Result(Cleared(OtaClose(s.flash, s.handle)), if o.abortOk then ERR_OK else ERR_OTA_FLASH_ERROR)
  }

  /** The chunk is the one accepted last, sent again. */
  predicate IsDuplicate(s: State, offset: uint32, data: seq<byte>)
  {
    |data| <= MAX_CHUNK_DATA_SIZE && offset == s.lastOffset && |data| == |s.lastChunk| &&
    Add32(offset, |data|) == s.bytesReceived && data == s.lastChunk
  }

  function Write(s: State, payload: seq<byte>, o: Outcome): Result
  {
    if !s.active then Result(s, ERR_OTA_NOT_STARTED)
    else if |payload| <= DATA_HEADER_SIZE then Result(s, ERR_INVALID_LENGTH)
    else if |payload| - DATA_HEADER_SIZE > MAX_CHUNK_DATA_SIZE then Result(s, ERR_INVALID_LENGTH)
    else Accept(s, ReadLe32(payload, 4), payload[DATA_HEADER_SIZE..], o)
  }

  /** The part of `Write` that looks at the offset. */
  function Accept(s: State, offset: uint32, data: seq<byte>, o: Outcome): Result
    requires |data| <= MAX_CHUNK_DATA_SIZE
  {
    if offset != s.bytesReceived then
      Result(s, if IsDuplicate(s, offset, data) then ERR_OK else ERR_OTA_INVALID_OFFSET)
    else if Add32(offset, |data|) > s.firmwareSize then Result(s, ERR_OTA_SIZE_ERROR)
    else if !o.writeOk then Result(s, ERR_OTA_FLASH_ERROR)
    else
      Result(s.(flash := OtaWrite(s.flash, s.handle, data), lastOffset := offset, lastChunk := data,
                bytesReceived := Add32(s.bytesReceived, |data|)), ERR_OK)
  }

  function End(s: State, o: Outcome): Result
  {
    if !s.active then Result(s, ERR_OTA_NOT_STARTED)
    else if s.bytesReceived != s.firmwareSize then Result(s, ERR_OTA_SIZE_ERROR)
    else
      var closed := OtaClose(s.flash, s.handle);
      if !o.endOk then Result(Cleared(closed), ERR_OTA_INVALID_IMAGE)
      else if o.sha.None? then Result(Cleared(closed), ERR_OTA_HASH_MISMATCH)
      else if o.sha.value != s.expected then Result(Cleared(closed), ERR_OTA_HASH_MISMATCH)
      else if !o.bootOk then Result(Cleared(closed), ERR_OTA_INVALID_IMAGE)
      else Result(Cleared(SetBoot(closed, s.slot)), ERR_OK)
  }

  datatype Op = OpBegin(payload: seq<byte>) | OpData(payload: seq<byte>) | OpEnd | OpAbort

  function Apply(s: State, op: Op, o: Outcome): Result
  {
    match op
    case OpBegin(payload) => Begin(s, payload, o)
    case OpData(payload) => Write(s, payload, o)
    case OpEnd => End(s, o)
    case OpAbort => Abort(s, o)
  }
}
