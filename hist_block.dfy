/** The pass-through `hist_block` (main.cpp:149-189): copies its input to its
    output, reading through its look-back window with a configurable shift. */
module PassThrough {
  import opened Items

  /** The input position `work` reads for output item `n` (main.cpp:173):
      `n + history() - d_delay`. */
  function ReadIndex(n: nat, history: u32, delay: u32): int {
    n + history - delay
  }

  /** The source's index arithmetic is unsigned, so a call reads inside its
      input exactly when no read underflows and the last one is in range. */
  predicate ReadsInBounds(noutputItems: nat, history: u32, delay: u32, inputLength: nat) {
    noutputItems == 0 || (delay <= history && noutputItems - 1 + history - delay < inputLength)
  }

  /** `ReadsInBounds` says exactly that every read of a call is inside the input. */
  lemma ReadsInBoundsIff(noutputItems: nat, history: u32, delay: u32, inputLength: nat)
    ensures ReadsInBounds(noutputItems, history, delay, inputLength) <==>
            forall n :: 0 <= n < noutputItems ==> 0 <= ReadIndex(n, history, delay) < inputLength
  {
    if noutputItems > 0 && !ReadsInBounds(noutputItems, history, delay, inputLength) {
      if delay > history {
        assert ReadIndex(0, history, delay) < 0;
      } else {
        assert ReadIndex(noutputItems - 1, history, delay) >= inputLength;
      }
    }
  }

  /** With the `noutput_items + history - 1` input items the scheduler hands
      a block, the reads stay inside the input exactly when the delay is
      between 1 and the history; with delay 0 the last read is one item past
      the end. */
  lemma WindowReadsInBounds(noutputItems: nat, history: u32, delay: u32)
    requires noutputItems >= 1 && history >= 1
    ensures ReadsInBounds(noutputItems, history, delay, noutputItems + history - 1) <==>
            1 <= delay <= history
    ensures delay == 0 ==> ReadIndex(noutputItems - 1, history, delay) == noutputItems + history - 1
  {
  }

  /** The delay `set_delay` keeps: the request, clamped below the history. */
  function ClampDelay(x: u32, history: u32): (r: u32)
    requires history >= 1
    ensures r == Min(x, history - 1)
    ensures r < history
  {
    if x >= history then history - 1 else x
  }

  /** After `set_delay` every read is at least one item past the output
      position, so the read index never underflows. */
  lemma ClampedReadAhead(n: nat, history: u32, x: u32)
    requires history >= 1
    ensures ReadIndex(n, history, ClampDelay(x, history)) >= n + 1
  {
  }

  /** After `set_delay(x)`, the scheduler's `noutput_items + history - 1`
      input items suffice exactly when both the request and the history
      leave a delay of at least 1; under the default history of 1 the clamp
      always yields 0 and the last read is past the end. */
  lemma ClampedWindowReads(noutputItems: nat, history: u32, x: u32)
    requires noutputItems >= 1 && history >= 1
    ensures ReadsInBounds(noutputItems, history, ClampDelay(x, history), noutputItems + history - 1) <==>
            x >= 1 && history >= 2
  {
    WindowReadsInBounds(noutputItems, history, ClampDelay(x, history));
  }

  /** Under the scheduler's input layout (`WindowOf`), output
      item `n`, written at absolute offset `nitems_read + n`, is the upstream
      item `1 - delay` positions after that offset. */
  lemma OutputOffset(stream: seq<u32>, input: seq<u32>, output: seq<u32>, nitemsRead: nat,
                     history: u32, delay: u32, noutputItems: nat)
    requires WindowOf(stream, input, nitemsRead, history)
    requires ReadsInBounds(noutputItems, history, delay, |input|) && noutputItems <= |output|
    requires forall n :: 0 <= n < noutputItems ==> output[n] == input[ReadIndex(n, history, delay)]
    ensures noutputItems > 0 ==> delay <= nitemsRead + 1 && nitemsRead + noutputItems - delay < |stream|
    ensures forall n :: 0 <= n < noutputItems ==> output[n] == stream[nitemsRead + n + 1 - delay]
  {
    if noutputItems > 0 {
      OutputOffsetAt(stream, input, output, nitemsRead, history, delay, noutputItems, 0);
      OutputOffsetAt(stream, input, output, nitemsRead, history, delay, noutputItems, noutputItems - 1);
    }
    forall n | 0 <= n < noutputItems
      ensures output[n] == stream[nitemsRead + n + 1 - delay]
    {
      OutputOffsetAt(stream, input, output, nitemsRead, history, delay, noutputItems, n);
    }
  }

  /** One output item of `OutputOffset`. */
  lemma OutputOffsetAt(stream: seq<u32>, input: seq<u32>, output: seq<u32>, nitemsRead: nat,
                       history: u32, delay: u32, noutputItems: nat, n: nat)
    requires WindowOf(stream, input, nitemsRead, history)
    requires ReadsInBounds(noutputItems, history, delay, |input|) && noutputItems <= |output|
    requires forall m :: 0 <= m < noutputItems ==> output[m] == input[ReadIndex(m, history, delay)]
    requires n < noutputItems
    ensures 0 <= nitemsRead + n + 1 - delay < |stream| && output[n] == stream[nitemsRead + n + 1 - delay]
  {
    ReadsInBoundsIff(noutputItems, history, delay, |input|);
    var j := ReadIndex(n, history, delay);
    assert 0 <= j < |input|;
    assert nitemsRead - (history - 1) + j == nitemsRead + n + 1 - delay;
  }

  class HistBlock {
    /** `d_delay`: how many items the output lags the look-back read. */
    var delay: u32

    constructor ()
      ensures delay == 0
    {
      delay := 0;
    }

    /** One call of `work`: `o[n] = i[n + history() - d_delay]` for every
        requested output item; `history` is `history()`. The scheduler hands
        separate input and output buffers. */
    method Work(noutputItems: nat, i: array<u32>, o: array<u32>, history: u32) returns (r: nat)
      requires i != o
      requires noutputItems <= o.Length
      requires ReadsInBounds(noutputItems, history, delay, i.Length)
      modifies o
      ensures r == noutputItems
      ensures forall n :: 0 <= n < noutputItems ==>
                0 <= ReadIndex(n, history, delay) < i.Length && o[n] == i[ReadIndex(n, history, delay)]
      ensures forall n :: noutputItems <= n < o.Length ==> o[n] == old(o[n])
      ensures i[..] == old(i[..])
    {
      ReadsInBoundsIff(noutputItems, history, delay, i.Length);
      var n := 0;
      while n < noutputItems
        invariant 0 <= n <= noutputItems
        invariant forall m :: 0 <= m < n ==> o[m] == i[ReadIndex(m, history, delay)]
        invariant forall m :: n <= m < o.Length ==> o[m] == old(o[m])
      {
        o[n] := i[n + history - delay];
        n := n + 1;
      }
      return noutputItems;
    }

    /** `set_delay`: keep the request, clamped to `history() - 1`. */
    method SetDelay(x: u32, history: u32)
      requires history >= 1
      modifies this
      ensures delay == ClampDelay(x, history)
    {
      delay := x;
      if delay >= history {
        delay := history - 1;
      }
    }
  }
}
