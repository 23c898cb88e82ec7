/** Types and constants of this build, from include/FreeRTOSConfig.h and the port layer. */
module KernelConfig {
  /** TickType_t is 32 bits wide: tick arithmetic is modulo TICK_RANGE. */
  const PORT_MAX_DELAY: nat := 0xFFFF_FFFF
  const TICK_RANGE: nat := PORT_MAX_DELAY + 1

  const MAX_PRIORITIES: nat := 56

  /** The top bit of an event item value: taskEVENT_LIST_ITEM_VALUE_IN_USE. */
  const VALUE_IN_USE: nat := 0x8000_0000

  type Byte = x: nat | x < 256

  type TickType = x: nat | x <= PORT_MAX_DELAY

  datatype Option<+T> = None | Some(value: T)

  /** Addition and subtraction of ticks, as the unsigned C type does them. */
  function TickAdd(a: TickType, b: TickType): (r: TickType)
    ensures r == a + b || r == a + b - TICK_RANGE
  {
    if a + b < TICK_RANGE then a + b else a + b - TICK_RANGE
  }

  function TickSub(a: TickType, b: TickType): (r: TickType)
    ensures r == a - b || r == a - b + TICK_RANGE
  {
    if b <= a then a - b else a - b + TICK_RANGE
  }
}
