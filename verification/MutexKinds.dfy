/** The kinds of mutexes, robust or not. */
module MutexKinds {
  datatype Kind = Normal | Recursive | Errorcheck
}
