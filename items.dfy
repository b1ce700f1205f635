/** Item and tag vocabulary shared by the three test blocks.
    Stream items are C `uint32_t`; the blocks' counters are 32-bit as well. */
module Items {

  const TWO_POW_32: int := 0x1_0000_0000
  const TWO_POW_31: int := 0x8000_0000

  /** A C `uint32_t` (also the `unsigned` of the target platform). */
  type u32 = x: int | 0 <= x < 0x1_0000_0000

  /** A C `int32_t`. */
  type i32 = x: int | -0x8000_0000 <= x < 0x8000_0000

  /** A stream tag: the absolute item offset it annotates, its key and its
      value (a `pmt` long, modelled as an integer). */
  datatype Tag = Tag(offset: nat, key: string, value: int)

  /** Unsigned 32-bit wrap-around, as `x++` on a `uint32_t` counter does. */
  function Wrap32(x: int): (r: u32)
    ensures 0 <= x < TWO_POW_32 ==> r == x
  {
    x % TWO_POW_32
  }

  /** The wrapped counter differs from the exact count by a multiple of 2^32. */
  lemma Wrap32Congruent(x: int)
    ensures (Wrap32(x) - x) % TWO_POW_32 == 0
  {
  }

  /** Conversion of a wider integer to `int32_t`: keeps the low 32 bits and
      reads them as two's complement. */
  function ToInt32(x: int): (r: i32)
    ensures -TWO_POW_31 <= x < TWO_POW_31 ==> r == x
  {
    var low := x % TWO_POW_32;
    if low < TWO_POW_31 then low else low - TWO_POW_32
  }

  /** The truncated value differs from the exact one by a multiple of 2^32. */
  lemma ToInt32Congruent(x: int)
    ensures (ToInt32(x) - x) % TWO_POW_32 == 0
  {
  }

  /** `x++` on a `uint32_t`. */
  function Inc32(x: u32): (r: u32)
    ensures x < 0xFFFF_FFFF ==> r == x + 1
  {
    if x == 0xFFFF_FFFF then 0 else x + 1
  }

  /** Incrementing the wrapped counter wraps the incremented count. */
  lemma Inc32Wrap(x: int)
    ensures Inc32(Wrap32(x)) == Wrap32(x + 1)
  {
  }

  /** The scheduler's input layout for a block with history `history`:
      `input[j]` is the item at absolute offset `nitems_read - (history - 1) + j`
      of the upstream `stream`, so the window starts `history - 1` items
      before the first new item. */
  ghost predicate WindowOf(stream: seq<u32>, input: seq<u32>, nitemsRead: nat, history: nat) {
    history >= 1 && nitemsRead + 1 >= history
    && nitemsRead - (history - 1) + |input| <= |stream|
    && forall j :: 0 <= j < |input| ==> input[j] == stream[nitemsRead - (history - 1) + j]
  }

  function Min(a: int, b: int): (r: int)
    ensures r <= a && r <= b && (r == a || r == b)
  {
    if a <= b then a else b
  }
}
