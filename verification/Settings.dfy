/** The compile-time constants of the mesh and the fixed-width integers of the C code. */
module Settings {

  const SERVER_PORT := 999
  const MATRIX_SIZE := 10
  const NODE_COUNT := MATRIX_SIZE * MATRIX_SIZE
  const APPS_COUNT := 4
  const TTL := MATRIX_SIZE * 2
  const MAX_MSG_LEN := 256
  const APP_MESSAGE_LEN := 150
  const BROADCAST_RADIUS := 3
  const UINT8_MAX := 255
  const UINT16_MAX := 65535

  type uint8 = x: int | 0 <= x < 0x100
  type uint16 = x: int | 0 <= x < 0x1_0000
  type uint32 = x: int | 0 <= x < 0x1_0000_0000
  type int8 = x: int | -0x80 <= x < 0x80

  /** Conversion of an int to int8_t: two's complement truncation. */
  function ToInt8(x: int): int8 {
    (x + 0x80) % 0x100 - 0x80
  }

  /** Conversion of an int to uint8_t. */
  function ToUint8(x: int): uint8 {
    x % 0x100
  }

  function NodePort(addr: uint8): uint16 {
    SERVER_PORT + addr + 1
  }

  function NodeAddr(port: uint16): int {
    port - SERVER_PORT - 1
  }
}
