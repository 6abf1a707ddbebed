/** What a transaction sees of the others. */
module Isolation {

  /** What plain reads see: the rows as committed when the transaction first read anything without a
      lock, or as committed now. Locking reads and indexes always see the latter. */
  datatype Reads = Snapshot | Latest
}
