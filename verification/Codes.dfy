/** Command and error numbers of protocol version 1. */
module Codes {
  import opened Bytes

  const CMD_PING: byte := 0x01
  const CMD_GET_INFO: byte := 0x02
  const CMD_REBOOT: byte := 0x03
  const CMD_ROLLBACK: byte := 0x04
  const CMD_AUTH: byte := 0x05
  const CMD_OTA_BEGIN: byte := 0x10
  const CMD_OTA_DATA: byte := 0x11
  const CMD_OTA_END: byte := 0x12
  const CMD_OTA_ABORT: byte := 0x13
  const CMD_ACK: byte := 0xF0
  const CMD_NACK: byte := 0xF1
  const CMD_INFO: byte := 0xF2

  const ERR_OK: byte := 0x00
  const ERR_UNKNOWN_COMMAND: byte := 0x01
  const ERR_INVALID_PACKET: byte := 0x02
  const ERR_INVALID_LENGTH: byte := 0x04
  const ERR_BUSY: byte := 0x05
  const ERR_AUTH_REQUIRED: byte := 0x06
  const ERR_OTA_ALREADY_STARTED: byte := 0x10
  const ERR_OTA_NOT_STARTED: byte := 0x11
  const ERR_OTA_INVALID_OFFSET: byte := 0x12
  const ERR_OTA_FLASH_ERROR: byte := 0x13
  const ERR_OTA_HASH_MISMATCH: byte := 0x14
  const ERR_OTA_INVALID_IMAGE: byte := 0x15
  const ERR_OTA_SIZE_ERROR: byte := 0x16
  const ERR_ROLLBACK_NOT_AVAILABLE: byte := 0x17

  /** The commands that mutate device state. */
  predicate IsProtected(command: byte)
  {
    command == CMD_REBOOT || command == CMD_ROLLBACK || command == CMD_OTA_BEGIN ||
    command == CMD_OTA_DATA || command == CMD_OTA_END || command == CMD_OTA_ABORT
  }
}
