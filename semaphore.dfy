/** The FreeRTOS binary semaphore that the handler gives on success and the
    request task takes: a single slot, raised or not. */
module Semaphore {

  class BinarySemaphore {
    var raised: bool

    /** xSemaphoreCreateBinary: a new binary semaphore starts empty. */
    constructor ()
      ensures !raised
    {
      raised := false;
    }

    /** xSemaphoreGive: raises the slot; giving an already raised binary
        semaphore fails and leaves it raised, so gives do not queue up. */
    method Give() returns (given: bool)
      modifies this
      ensures raised
      ensures given <==> !old(raised)
    {
      given := !raised;
      raised := true;
    }

    /** xSemaphoreTake, for one attempt: consumes the slot if it is raised.
        A take with an unbounded timeout repeats this until it succeeds. */
    method Take() returns (taken: bool)
      modifies this
      ensures !raised
      ensures taken <==> old(raised)
    {
      taken := raised;
      raised := false;
    }
  }
}
