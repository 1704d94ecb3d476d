/** The word of the global test-and-set lock: never taken, taken, or last released by a node. */
module LockWord {
  datatype Word = Init | Locked | User(n: nat)
}
