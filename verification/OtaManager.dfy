/** `ota_manager.c`: the machine as the firmware runs it, on its static state. */
module OtaManager {
  import opened Bytes
  import opened Codes
  import opened Esp
  import M = OtaMachine

  class Manager {
    var active: bool
    var firmwareSize: uint32
    var bytesReceived: uint32
    var lastChunkOffset: uint32
    var lastChunkLength: nat
    const lastChunkData: array<byte>
    var expectedSha256: seq<byte>
    var handle: nat
    var partition: nat
    var flash: Flash

    ghost predicate Valid()
      reads this
    {
      lastChunkData.Length == M.MAX_CHUNK_DATA_SIZE && lastChunkLength <= M.MAX_CHUNK_DATA_SIZE
    }

    ghost function State(): M.State
      reads this, lastChunkData
      requires Valid()
    {
      M.State(active, firmwareSize, bytesReceived, lastChunkOffset, lastChunkData[..lastChunkLength],
              expectedSha256, handle, partition, flash)
    }

    constructor (f: Flash)
      ensures Valid() && fresh(lastChunkData) && State() == M.Cleared(f)
    {
      lastChunkData := new byte[M.MAX_CHUNK_DATA_SIZE];
      active, firmwareSize, bytesReceived, lastChunkOffset, lastChunkLength := false, 0, 0, 0, 0;
      expectedSha256, handle, partition, flash := [], 0, 0, f;
    }

    /** memset of the whole state; the platform's flash stays. */
    method Clear()
      requires Valid()
      modifies this
      ensures Valid() && State() == M.Cleared(old(flash))
    {
      active, firmwareSize, bytesReceived, lastChunkOffset, lastChunkLength := false, 0, 0, 0, 0;
      expectedSha256, handle, partition := [], 0, 0;
    }

    method Begin(payload: seq<byte>, o: Outcome) returns (error: byte)
      requires Valid()
      modifies this
      ensures Valid() && M.Result(State(), error) == M.Begin(old(State()), payload, o)
    {
      if active {
        return ERR_OTA_ALREADY_STARTED;
      }
      if |payload| != M.BEGIN_PAYLOAD_SIZE {
        return ERR_INVALID_LENGTH;
      }
      var size := ReadLe32(payload, 0);
      if size == 0 {
        return ERR_OTA_SIZE_ERROR;
      }
      if o.partition.None? {
        return ERR_OTA_INVALID_IMAGE;
      }
      if size > o.partition.value.size {
        return ERR_OTA_SIZE_ERROR;
      }
      if !o.beginOk {
        return ERR_OTA_FLASH_ERROR;
      }
      flash := OtaBegin(flash, o.partition.value.slot, o.handle);
      Clear();
      active := true;
      firmwareSize := size;
      handle := o.handle;
      partition := o.partition.value.slot;
      expectedSha256 := payload[4..];
      return ERR_OK;
    }

    method Abort(o: Outcome) returns (error: byte)
      requires Valid()
      modifies this
      ensures Valid() && M.Result(State(), error) == M.Abort(old(State()), o)
    {
      if !active {
        return ERR_OTA_NOT_STARTED;
      }
      flash := OtaClose(flash, handle);
      Clear();
      return if o.abortOk then ERR_OK else ERR_OTA_FLASH_ERROR;
    }

    method WriteData(payload: seq<byte>, o: Outcome) returns (error: byte)
      requires Valid()
      modifies this, lastChunkData
      ensures Valid() && M.Result(State(), error) == M.Write(old(State()), payload, o)
    {
      if !active {
        return ERR_OTA_NOT_STARTED;
      }
      if |payload| <= M.DATA_HEADER_SIZE {
        return ERR_INVALID_LENGTH;
      }
      var offset := ReadLe32(payload, 4);
      var data := payload[M.DATA_HEADER_SIZE..];
      if |data| > M.MAX_CHUNK_DATA_SIZE {
        return ERR_INVALID_LENGTH;
      }
      error := Accept(offset, data, o);
    }

    /** The part of `WriteData` that looks at the offset. */
    method Accept(offset: uint32, data: seq<byte>, o: Outcome) returns (error: byte)
      requires Valid() && |data| <= M.MAX_CHUNK_DATA_SIZE
      modifies this, lastChunkData
      ensures Valid() && M.Result(State(), error) == M.Accept(old(State()), offset, data, o)
    {
      if offset != bytesReceived {
        if offset == lastChunkOffset && |data| == lastChunkLength &&
           M.Add32(offset, |data|) == bytesReceived && lastChunkData[..|data|] == data {
          return ERR_OK;
        }
        return ERR_OTA_INVALID_OFFSET;
      }
      if M.Add32(offset, |data|) > firmwareSize {
        return ERR_OTA_SIZE_ERROR;
      }
      if !o.writeOk {
        return ERR_OTA_FLASH_ERROR;
      }
      flash := OtaWrite(flash, handle, data);
      lastChunkOffset := offset;
      lastChunkLength := |data|;
      Remember(data);
      bytesReceived := M.Add32(bytesReceived, |data|);
      return ERR_OK;
    }

    /** memcpy into the remembered chunk. */
    method Remember(data: seq<byte>)
      requires |data| <= lastChunkData.Length
      modifies lastChunkData
      ensures lastChunkData[..|data|] == data
    {
      for i := 0 to |data|
        invariant lastChunkData[..i] == data[..i]
      {
        lastChunkData[i] := data[i];
        assert lastChunkData[..i + 1] == lastChunkData[..i] + [data[i]];
      }
    }

    method End(o: Outcome) returns (error: byte)
      requires Valid()
      modifies this
      ensures Valid() && M.Result(State(), error) == M.End(old(State()), o)
    {
      if !active {
        return ERR_OTA_NOT_STARTED;
      }
      if bytesReceived != firmwareSize {
        return ERR_OTA_SIZE_ERROR;
      }
      flash := OtaClose(flash, handle);
      if !o.endOk {
        Clear();
        return ERR_OTA_INVALID_IMAGE;
      }
      if o.sha.None? {
        Clear();
        return ERR_OTA_HASH_MISMATCH;
      }
      if o.sha.value != expectedSha256 {
        Clear();
        return ERR_OTA_HASH_MISMATCH;
      }
      if !o.bootOk {
        Clear();
        return ERR_OTA_INVALID_IMAGE;
      }
      flash := SetBoot(flash, partition);
      Clear();
      return ERR_OK;
    }
  }
}
