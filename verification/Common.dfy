/** Result codes, constants and the small vocabulary shared by every module. */
module Common {

  datatype Option<+T> = None | Some(value: T)

  /** A computation that either finishes or touches memory it no longer owns. */
  datatype Outcome<+T> = Fine(value: T) | Fault
  {
    predicate IsFailure() {
      Fault?
    }

    function PropagateFailure<U>(): Outcome<U>
      requires Fault?
    {
      Fault
    }

    function Extract(): T
      requires Fine?
    {
      value
    }
  }

  /** The result codes the modelled functions can return (misc/include/errors.h). */
  datatype ErrType =
    | SUCCESS
    | FAIL
    | TIMEDOUT
    | SIG_FAIL
    | TQ_FAIL
    | PIPE_FAIL
    | PIPE_READ_FAIL
    | PIPE_WRITE_FAIL
    | PIPE_EMPTY
    | PIPE_FULL
    | PIPE_CLOSED
    | PIPE_PARTIAL
    | GROW_FAIL

  /** What a queued task asks a worker to do (misc/include/fifo.h). */
  datatype TaskType =
    | HANDSHAKE
    | AUTHORISE
    | CREATE_CANVAS
    | DESTROY_CANVAS
    | CREATE_SPRITE
    | CREATE_RECTANGLE
    | CREATE_CIRCLE
    | DESTROY_SPRITE
    | PLACE_SPRITE
    | PLACEMENT_UP
    | PLACEMENT_DOWN
    | PLACEMENT_TOP
    | PLACEMENT_BOTTOM
    | DESTROY_PLACEMENT
    | SET_ANIM_PARAM
    | GENERATE
    | SHARE
    | BARRIER

  const MAX_RPC_BUF_LEN: nat := 128
  const INT_MIN: int := -0x8000_0000
  const INT_MAX: int := 0x7fff_ffff
}
