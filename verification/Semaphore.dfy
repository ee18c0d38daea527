/** The fleet-wide worker bound, a buffered channel: an acquire sends into it, a release receives from it. */
module Semaphores {
  datatype Acquired = Got | Cancelled | Blocked

  class Semaphore {
    const bound: nat
    var held: nat

    ghost predicate Valid() reads this { 1 <= bound && held <= bound }

    constructor (n: int)
      ensures Valid() && held == 0 && bound == if n < 1 then 1 else n
    {
      bound := if n < 1 then 1 else n;
      held := 0;
    }

    /** One pass through the select; `done` is the context's state and `preferDone` its choice when both arms are
        ready. */
    method Acquire(done: bool, preferDone: bool) returns (r: Acquired)
      requires Valid()
      modifies this
      ensures Valid() && held == old(held) + (if r.Got? then 1 else 0)
      ensures r.Blocked? <==> old(held) == bound && !done
      ensures r.Cancelled? ==> done
      ensures old(held) < bound && !done ==> r.Got?
    {
      if held < bound && !(done && preferDone) {
        held := held + 1;
        return Got;
      }
      r := if done then Cancelled else Blocked;
    }

    /** Takes all `n` permits or none: it succeeds exactly when `n` are free. */
    method TryAcquireN(n: int) returns (ok: bool)
      requires Valid()
      modifies this
      ensures Valid() && ok == (n <= bound - old(held))
      ensures held == old(held) + if ok && n > 0 then n else 0
    {
      var taken := 0;
      while taken < n
        invariant 0 <= taken && (taken <= n || taken == 0) && held == old(held) + taken <= bound
      {
        if held < bound {
          held, taken := held + 1, taken + 1;
        } else {
          for i := 0 to taken
            invariant held == old(held) + taken - i
          {
            held := held - 1;
          }
          return false;
        }
      }
      ok := true;
    }

    /** Receiving from an empty channel blocks: a release nothing was acquired for does not return. */
    method Release() returns (returned: bool)
      requires Valid()
      modifies this
      ensures Valid() && returned == (old(held) > 0) && held == if returned then old(held) - 1 else old(held)
    {
      if held == 0 { return false; }
      held := held - 1;
      returned := true;
    }

    /** It returns exactly when that many permits are held; otherwise it drains them all and then blocks. */
    method ReleaseN(n: int) returns (returned: bool)
      requires Valid()
      modifies this
      ensures Valid() && returned == (n <= old(held))
      ensures held == if !returned then 0 else if n > 0 then old(held) - n else old(held)
    {
      var i := 0;
      while i < n
        invariant 0 <= i && (i <= n || i == 0) && held == old(held) - i
      {
        if held == 0 { return false; }
        held, i := held - 1, i + 1;
      }
      returned := true;
    }
  }
}
