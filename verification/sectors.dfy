/** Disk requests and the 64-bit sector arithmetic of the scheduler. */
module Sectors {

  const TWO_63: nat := 0x8000_0000_0000_0000
  const TWO_64: nat := 0x1_0000_0000_0000_0000

  /** A block request. `id` stands for the address of the request structure: it tells apart
      requests that share a start and a size. */
  datatype Request = Request(id: nat, pos: nat, sectors: nat) {

    /** The first sector after the request, as an unbounded integer. */
    function Limit(): nat { pos + sectors }

    /** What rq_end_sector() computes: the same sum in a 64-bit sector_t. */
    function End(): nat { Limit() % TWO_64 }

    /** Its end is a 64-bit sector number too. */
    predicate Addressable() { Limit() < TWO_64 }

    predicate InRange() { Limit() < TWO_63 }
  }

  datatype Option<+T> = None | Some(value: T)

  /** Subtraction of two `unsigned long` values. */
  function Sub64(a: nat, b: nat): nat {
    (a - b) % TWO_64
  }

  lemma Sub64Exact(a: nat, b: nat)
    requires a < TWO_64 && b < TWO_64
    ensures Sub64(a, b) == if b <= a then a - b else a - b + TWO_64
  {
  }

  /** It is the difference up to whole turns of 2^64, for any operands. */
  lemma Sub64Word(a: nat, b: nat)
    ensures Sub64(a, b) < TWO_64 && (a - b - Sub64(a, b)) % TWO_64 == 0
  {
  }

  /** The length of the seek from head position `h` to sector `p`. */
  function Distance(h: nat, p: nat): nat {
    if p < h then h - p else p - h
  }
}
