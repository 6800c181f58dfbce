/** The byte budget shared by everything a workspace writes. */
module DiskBudgets {
  import opened Common

  class DiskBudget {
    var used: nat
    var peak: nat
    const maximum: nat

    constructor (maximum: nat)
      ensures used == 0 && peak == 0 && this.maximum == maximum
    {
      this.used := 0;
      this.peak := 0;
      this.maximum := maximum;
    }

    /** Take n bytes if they fit; a refusal changes nothing. */
    method Charge(n: nat) returns (ok: bool)
      modifies this
      ensures ok <==> old(used) + n <= maximum
      ensures used == if ok then old(used) + n else old(used)
      ensures peak == if ok then Max(old(peak), used) else old(peak)
    {
      if used + n > maximum {
        return false;
      }
      used := used + n;
      peak := Max(peak, used);
      ok := true;
    }

    /** Give n bytes back; giving back more than was taken is refused. */
    method Release(n: nat) returns (ok: bool)
      modifies this
      ensures ok <==> n <= old(used)
      ensures used == if ok then old(used) - n else old(used)
      ensures peak == old(peak)
    {
      if used < n {
        return false;
      }
      used := used - n;
      ok := true;
    }
  }
}
