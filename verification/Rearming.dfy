/** What a handler returns to say what becomes of its watcher. */
module Rearming {
  datatype Rearm = REARM | DISARM | NOOP | REMOVE | REMOVED | REQUEUE
}
