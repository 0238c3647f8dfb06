/** Counting the states in which something holds. */
module Counting {
  function One(c: bool): nat { if c then 1 else 0 }
}
