/** How a call to a store or a queue can go. */
module Replies {
  /** Answered, failed without effect, or applied with its reply lost. */
  datatype Reply = Answered | Failed | ReplyLost {
    predicate Applied() { !Failed? }
  }
}
