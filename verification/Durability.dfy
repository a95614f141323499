/** How an atomic file replacement can end. */
module Durability {

  /** PublishedButRaised: the new file is in place, but synchronizing its directory failed. */
  datatype WriteOutcome = Written | NotWritten | PublishedButRaised
}
