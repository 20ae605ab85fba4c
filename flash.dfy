/**
 * The flash map as the application sees it through `flash_area_open`,
 * `flash_area_read` and `flash_area_close`: a map from area id to the area's size,
 * offset and contents, and the ids whose open or read the driver refuses. The device
 * records every open call and the handles still open, so that leaks can be stated.
 */
module Flash {
  import opened FixedWidth

  /**
   * One flash area: `fa_off` and its contents from offset 0. Its `fa_size` is the
   * length of those contents, so a read is in bounds exactly when it ends within
   * `size`, which is what `flash_area_read` checks.
   */
  datatype Area = Area(offset: nat, bytes: seq<uint8>)
  {
    const size: nat := |bytes|
  }

  /** What the flash driver answers; it never changes while the application runs. */
  datatype Layout = Layout(areas: map<int, Area>, openFails: set<int>, readFails: set<int>)
  {
    /** `flash_area_open(id, ...)` returns 0. */
    predicate CanOpen(id: int) {
      id in areas && id !in openFails
    }

    /** `flash_area_read` of `len` bytes at `off` returns 0: no driver error and within the area. */
    predicate CanRead(id: int, off: nat, len: nat) {
      id in areas && id !in readFails && off + len <= areas[id].size
    }
  }

  /** Ids lo, lo+1, ..., hi-1 in increasing order. */
  function Ids(lo: int, hi: int): (s: seq<int>)
    decreases hi - lo
  {
    if hi <= lo then [] else Ids(lo, hi - 1) + [hi - 1]
  }

  lemma {:induction false} IdsAt(lo: int, hi: int, k: nat)
    requires lo <= hi && k < hi - lo
    ensures |Ids(lo, hi)| == hi - lo && Ids(lo, hi)[k] == lo + k
    decreases hi - lo
  {
    if k < hi - 1 - lo {
      IdsAt(lo, hi - 1, k);
    } else {
      IdsLength(lo, hi - 1);
    }
  }

  lemma {:induction false} IdsLength(lo: int, hi: int)
    requires lo <= hi
    ensures |Ids(lo, hi)| == hi - lo
    decreases hi - lo
  {
    if lo < hi {
      IdsLength(lo, hi - 1);
    }
  }

  class FlashDevice {
    const layout: Layout
    /** Every id passed to `flash_area_open`, in call order, whether the open succeeded or not. */
    var probes: seq<int>
    /** The areas opened and not yet closed. */
    var held: multiset<int>

    constructor (layout: Layout)
      ensures this.layout == layout && probes == [] && held == multiset{}
    {
      this.layout := layout;
      probes := [];
      held := multiset{};
    }

    /** `flash_area_open(id, &fa) == 0`. */
    method Open(id: int) returns (ok: bool)
      modifies this
      ensures ok == layout.CanOpen(id)
      ensures probes == old(probes) + [id]
      ensures held == if ok then old(held) + multiset{id} else old(held)
    {
      ok := layout.CanOpen(id);
      probes := probes + [id];
      if ok {
        held := held + multiset{id};
      }
    }

    /** `flash_area_read(fa, off, buf, buf.Length) == 0` through an open handle. */
    method Read(id: int, off: nat, buf: array<uint8>) returns (ok: bool)
      requires id in held && layout.CanOpen(id)
      modifies buf
      ensures ok == layout.CanRead(id, off, buf.Length)
      ensures ok ==> buf[..] == layout.areas[id].bytes[off..off + buf.Length]
      ensures !ok ==> buf[..] == old(buf[..])
    {
      ok := layout.CanRead(id, off, buf.Length);
      if ok {
        var data := layout.areas[id].bytes;
        forall k | 0 <= k < buf.Length {
          buf[k] := data[off + k];
        }
      }
    }

    /** `flash_area_close(fa)`. */
    method Close(id: int)
      requires id in held
      modifies this
      ensures probes == old(probes)
      ensures held == old(held) - multiset{id}
    {
      held := held - multiset{id};
    }
  }
}
