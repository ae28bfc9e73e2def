/** Ids of nodes, users, devices and pools. */
module Ids {

  /** Ids are only compared, with each other and with the empty string: numbers stand for them, 0 for
      the empty string. A node has the id of its device. */
  type Id = int

  const NOBODY: Id := 0
  const SOMEBODY: Id := 1
}
