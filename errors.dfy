// Error codes shared by every driver (src/error_codes.h) and the FAILED test.
module Errors {

  const ALL_OK: int := 0
  const E_NOT_IMPLEMENTED: int := -10001
  const E_INVALID_ARGUMENT: int := -90001
  const E_INVALID_ADDRESS: int := -90002
  const E_INVALID_OPERATION: int := -90003
  const E_HARDWARE_ERROR: int := -60001
  const E_HARDWARE_TIMEOUT: int := -60500
  const E_HARDWARE_RESOURCE_BUSY: int := -60304
  const E_HARDWARE_NOTFOUND: int := -60404
  const E_MEMORY_ERROR: int := -70001
  const E_MEMORY_ALLOC_FAILED: int := -70002
  const E_MEMORY_BUFFER_INUSE: int := -70005
  const E_MEMORY_OUT_OF_BOUND: int := -70100
  /** The SSD1315 driver names an error code that the error table never defines;
      the model gives it a failing value of its own, distinct from every defined code. */
  const E_MEMORY_NOT_ENOUGH: int := -70101

  /** error_t is a 32-bit signed integer. */
  predicate IsErrorT(e: int) { -0x8000_0000 <= e < 0x8000_0000 }

  /** FAILED(res): any result other than ALL_OK is a failure. */
  predicate Failed(res: int) { res != ALL_OK }
}
