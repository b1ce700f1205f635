/** The counting sink `cnt_sink` (main.cpp:82-147): counts the items and tags
    it receives and, for every tag, checks that the item it looks up for the
    tag carries the tag's value. */
module CntSinkBlock {
  import opened Items

  /** The input position `work` reads for tag `t` (main.cpp:108):
      `tag.offset - nitems_read(0) - history()`. */
  function LookupIndex(t: Tag, nitemsRead: nat, history: nat): int {
    t.offset - nitemsRead - history
  }

  /** Every lookup of the tags `ts` stays inside the input `items`. */
  predicate Readable(items: seq<u32>, ts: seq<Tag>, nitemsRead: nat, history: nat) {
    forall j :: 0 <= j < |ts| ==> 0 <= LookupIndex(ts[j], nitemsRead, history) < |items|
  }

  /** The looked-up item differs from the tag's value. */
  predicate Mismatch(items: seq<u32>, t: Tag, nitemsRead: nat, history: nat)
    requires 0 <= LookupIndex(t, nitemsRead, history) < |items|
  {
    items[LookupIndex(t, nitemsRead, history)] != t.value
  }

  /** Number of mismatching tags among the first `n` of `ts`. */
  function Mismatches(items: seq<u32>, ts: seq<Tag>, nitemsRead: nat, history: nat, n: nat): nat
    requires Readable(items, ts, nitemsRead, history) && n <= |ts|
  {
    if n == 0 then 0
    else Mismatches(items, ts, nitemsRead, history, n - 1)
         + (if Mismatch(items, ts[n - 1], nitemsRead, history) then 1 else 0)
  }

  /** `d_last_tag_offset` after scanning the first `n` tags of `ts`, starting
      from `prev`: the item-minus-value difference of the last mismatching
      tag, truncated to `int32_t`. */
  function LastDifference(items: seq<u32>, ts: seq<Tag>, nitemsRead: nat, history: nat, n: nat, prev: i32): i32
    requires Readable(items, ts, nitemsRead, history) && n <= |ts|
  {
    if n == 0 then prev
    else if Mismatch(items, ts[n - 1], nitemsRead, history) then
      ToInt32(items[LookupIndex(ts[n - 1], nitemsRead, history)] - ts[n - 1].value)
    else LastDifference(items, ts, nitemsRead, history, n - 1, prev)
  }

  /** For a tag that `get_tags_in_window(…, 0, noutput_items)` returns, the
      lookup index lies below `noutput_items - history + 1`, and it is
      non-negative exactly for tags at window position `history` or later. */
  lemma LookupIndexRange(t: Tag, nitemsRead: nat, history: nat, noutputItems: nat)
    requires nitemsRead <= t.offset < nitemsRead + noutputItems
    ensures LookupIndex(t, nitemsRead, history) < noutputItems - history + 1
    ensures 0 <= LookupIndex(t, nitemsRead, history) <==> history <= t.offset - nitemsRead
  {
  }

  /** With the `noutput_items + history - 1` input items the scheduler hands
      a block, the lookups of the tags in the window are all inside the
      input exactly when no tag sits in the first `history` window positions. */
  lemma WindowReadable(items: seq<u32>, ts: seq<Tag>, nitemsRead: nat, history: nat, noutputItems: nat)
    requires history >= 1 && |items| == noutputItems + history - 1
    requires forall j :: 0 <= j < |ts| ==> nitemsRead <= ts[j].offset < nitemsRead + noutputItems
    ensures Readable(items, ts, nitemsRead, history) <==>
            forall j :: 0 <= j < |ts| ==> nitemsRead + history <= ts[j].offset
  {
    forall j | 0 <= j < |ts| {
      LookupIndexRange(ts[j], nitemsRead, history, noutputItems);
    }
  }

  /** No more mismatches than tags. */
  lemma {:induction false} MismatchesAtMost(items: seq<u32>, ts: seq<Tag>, nitemsRead: nat, history: nat, n: nat)
    requires Readable(items, ts, nitemsRead, history) && n <= |ts|
    ensures Mismatches(items, ts, nitemsRead, history, n) <= n
  {
    if n > 0 {
      MismatchesAtMost(items, ts, nitemsRead, history, n - 1);
    }
  }

  /** The mismatch count is zero exactly when every tag round-trips: the
      looked-up item equals the tag's value. */
  lemma {:induction false} NoMismatchesIff(items: seq<u32>, ts: seq<Tag>, nitemsRead: nat, history: nat, n: nat)
    requires Readable(items, ts, nitemsRead, history) && n <= |ts|
    ensures Mismatches(items, ts, nitemsRead, history, n) == 0 <==>
            forall j :: 0 <= j < n ==> items[LookupIndex(ts[j], nitemsRead, history)] == ts[j].value
  {
    if n > 0 {
      NoMismatchesIff(items, ts, nitemsRead, history, n - 1);
    }
  }

  /** Without a mismatch the last difference keeps its previous value. */
  lemma {:induction false} LastDifferenceKept(items: seq<u32>, ts: seq<Tag>, nitemsRead: nat, history: nat, n: nat, prev: i32)
    requires Readable(items, ts, nitemsRead, history) && n <= |ts|
    requires Mismatches(items, ts, nitemsRead, history, n) == 0
    ensures LastDifference(items, ts, nitemsRead, history, n, prev) == prev
  {
    if n > 0 {
      LastDifferenceKept(items, ts, nitemsRead, history, n - 1, prev);
    }
  }

  /** Among the first `n` tags, tag `j` mismatches and every later one round-trips. */
  predicate IsLastMismatch(items: seq<u32>, ts: seq<Tag>, nitemsRead: nat, history: nat, n: nat, j: nat)
    requires Readable(items, ts, nitemsRead, history) && j < n <= |ts|
  {
    Mismatch(items, ts[j], nitemsRead, history)
    && forall k :: j < k < n ==> !Mismatch(items, ts[k], nitemsRead, history)
  }

  /** With a mismatch, the last difference is that of the last mismatching
      tag. */
  lemma {:induction false} LastDifferenceOfLastMismatch(items: seq<u32>, ts: seq<Tag>, nitemsRead: nat, history: nat, n: nat, prev: i32)
    requires Readable(items, ts, nitemsRead, history) && n <= |ts|
    requires Mismatches(items, ts, nitemsRead, history, n) > 0
    ensures exists j :: 0 <= j < n && IsLastMismatch(items, ts, nitemsRead, history, n, j)
                        && LastDifference(items, ts, nitemsRead, history, n, prev)
                           == ToInt32(items[LookupIndex(ts[j], nitemsRead, history)] - ts[j].value)
  {
    if Mismatch(items, ts[n - 1], nitemsRead, history) {
      assert IsLastMismatch(items, ts, nitemsRead, history, n, n - 1);
    } else {
      LastDifferenceOfLastMismatch(items, ts, nitemsRead, history, n - 1, prev);
      var j :| 0 <= j < n - 1 && IsLastMismatch(items, ts, nitemsRead, history, n - 1, j)
               && LastDifference(items, ts, nitemsRead, history, n - 1, prev)
                  == ToInt32(items[LookupIndex(ts[j], nitemsRead, history)] - ts[j].value);
      assert IsLastMismatch(items, ts, nitemsRead, history, n, j);
    }
  }

  /** Under the scheduler's input layout (`WindowOf`), the check compares each tag with the item `2 * history - 1` positions
      before the tagged one; with the default history of 1, with the item
      just before it. */
  lemma CheckedItemOffset(stream: seq<u32>, items: seq<u32>, ts: seq<Tag>, nitemsRead: nat, history: nat)
    requires WindowOf(stream, items, nitemsRead, history)
    requires Readable(items, ts, nitemsRead, history)
    ensures forall j :: 0 <= j < |ts| ==> 0 <= ts[j].offset - (2 * history - 1) < |stream|
    ensures Mismatches(items, ts, nitemsRead, history, |ts|) == 0 <==>
            forall j :: 0 <= j < |ts| ==> stream[ts[j].offset - (2 * history - 1)] == ts[j].value
  {
    NoMismatchesIff(items, ts, nitemsRead, history, |ts|);
    forall j | 0 <= j < |ts|
      ensures 0 <= ts[j].offset - (2 * history - 1) < |stream|
      ensures items[LookupIndex(ts[j], nitemsRead, history)] == stream[ts[j].offset - (2 * history - 1)]
    {
      var x := LookupIndex(ts[j], nitemsRead, history);
      assert 0 <= x < |items|;
      assert nitemsRead - (history - 1) + x == ts[j].offset - (2 * history - 1);
    }
  }

  class CntSink {
    /** `d_cnt`: items received since the last reset. */
    var cnt: u32
    /** `d_tags`: tags received since the last reset. */
    var tags: u32
    /** `d_offset_tags`: tags whose looked-up item differed from their value. */
    var offsetTags: u32
    /** `d_last_tag_offset`: item minus value of the last such tag. */
    var lastTagOffset: i32

    constructor ()
      ensures cnt == 0 && tags == 0 && offsetTags == 0 && lastTagOffset == 0
    {
      cnt := 0;
      tags := 0;
      offsetTags := 0;
      lastTagOffset := 0;
    }

    /** One call of `work` on the input `i`; `windowTags` are the tags that
        `get_tags_in_window` returns for this call, `nitemsRead` is
        `nitems_read(0)` and `history` is `history()`. */
    method Work(noutputItems: nat, i: array<u32>, nitemsRead: nat, history: nat, windowTags: seq<Tag>)
      returns (r: nat)
      requires Readable(i[..], windowTags, nitemsRead, history)
      modifies this
      ensures r == noutputItems
      ensures cnt == Wrap32(old(cnt) + noutputItems)
      ensures tags == Wrap32(old(tags) + |windowTags|)
      ensures offsetTags == Wrap32(old(offsetTags) + Mismatches(i[..], windowTags, nitemsRead, history, |windowTags|))
      ensures lastTagOffset == LastDifference(i[..], windowTags, nitemsRead, history, |windowTags|, old(lastTagOffset))
    {
      ghost var items, tags0, offsetTags0, last0 := i[..], tags, offsetTags, lastTagOffset;
      var k := 0;
      while k < |windowTags|
        invariant 0 <= k <= |windowTags|
        invariant tags == Wrap32(tags0 + k)
        invariant offsetTags == Wrap32(offsetTags0 + Mismatches(items, windowTags, nitemsRead, history, k))
        invariant lastTagOffset == LastDifference(items, windowTags, nitemsRead, history, k, last0)
        modifies this`tags, this`offsetTags, this`lastTagOffset
      {
        var tag := windowTags[k];
        Inc32Wrap(tags0 + k);
        tags := Inc32(tags);
        var idx := tag.offset - nitemsRead - history;
        assert idx == LookupIndex(tag, nitemsRead, history) && i[idx] == items[idx];
        if i[idx] != tag.value {
          Inc32Wrap(offsetTags0 + Mismatches(items, windowTags, nitemsRead, history, k));
          offsetTags := Inc32(offsetTags);
          lastTagOffset := ToInt32(i[idx] - tag.value);
        }
        k := k + 1;
      }
      ghost var cnt0 := cnt;
      var n := 0;
      while n < noutputItems
        invariant 0 <= n <= noutputItems
        invariant cnt == Wrap32(cnt0 + n)
        modifies this`cnt
      {
        Inc32Wrap(cnt0 + n);
        cnt := Inc32(cnt);
        n := n + 1;
      }
      return noutputItems;
    }

    /** `reset_counters`: clears the counts but not `d_last_tag_offset`. */
    method ResetCounters()
      modifies this`cnt, this`tags, this`offsetTags
      ensures cnt == 0 && tags == 0 && offsetTags == 0
      ensures lastTagOffset == old(lastTagOffset)
    {
      cnt := 0;
      tags := 0;
      offsetTags := 0;
    }
  }
}
