/** The counting source `cnt_source` (main.cpp:18-80): emits the values
    0, 1, 2, ... up to an item budget, then end-of-stream, and tags every
    item whose value is a multiple of the tag interval. */
module CntSourceBlock {
  import opened Items

  /** The key every source tag carries (`pmt::intern("cnt_tag")`). */
  const TAG_KEY: string := "cnt_tag"

  /** Whether the source tags value `v` under tag interval `k`; interval 0
      switches tagging off. */
  predicate IsTagged(v: int, k: u32) {
    k != 0 && v % k == 0
  }

  /** Reference count: how many values in `[lo, hi)` the interval `k` tags. */
  function Multiples(lo: nat, hi: nat, k: u32): nat
    decreases hi
  {
    if hi <= lo then 0
    else Multiples(lo, hi - 1, k) + (if IsTagged(hi - 1, k) then 1 else 0)
  }

  /** The tags the source attaches, in order, while it emits the values
      `lo, ..., hi - 1` at absolute offsets `nw, nw + 1, ...`. */
  function SourceTags(nw: nat, lo: nat, hi: nat, k: u32): seq<Tag>
    decreases hi
  {
    if hi <= lo then []
    else SourceTags(nw, lo, hi - 1, k)
         + (if IsTagged(hi - 1, k) then [Tag(nw + (hi - 1 - lo), TAG_KEY, hi - 1)] else [])
  }

  /** There is one tag per tagged value. */
  lemma {:induction false} SourceTagsCount(nw: nat, lo: nat, hi: nat, k: u32)
    ensures |SourceTags(nw, lo, hi, k)| == Multiples(lo, hi, k)
    decreases hi
  {
    if hi > lo {
      SourceTagsCount(nw, lo, hi - 1, k);
    }
  }

  /** Every tag sits on a tagged value, at the offset where that value is
      written, and carries that value as its own. */
  lemma {:induction false} SourceTagsSound(nw: nat, lo: nat, hi: nat, k: u32)
    ensures forall t :: t in SourceTags(nw, lo, hi, k) ==>
              lo <= t.value < hi && IsTagged(t.value, k)
              && t.offset == nw + (t.value - lo) && t.key == TAG_KEY
    decreases hi
  {
    if hi > lo {
      SourceTagsSound(nw, lo, hi - 1, k);
    }
  }

  /** Every tagged value in the range gets its tag. */
  lemma {:induction false} SourceTagsComplete(nw: nat, lo: nat, hi: nat, k: u32)
    ensures forall v :: lo <= v < hi && IsTagged(v, k) ==>
              Tag(nw + (v - lo), TAG_KEY, v) in SourceTags(nw, lo, hi, k)
    decreases hi
  {
    if hi > lo {
      SourceTagsComplete(nw, lo, hi - 1, k);
    }
  }

  /** Tags come out in strictly increasing offset order. */
  lemma {:induction false} SourceTagsOrdered(nw: nat, lo: nat, hi: nat, k: u32)
    ensures forall i, j :: 0 <= i < j < |SourceTags(nw, lo, hi, k)| ==>
              SourceTags(nw, lo, hi, k)[i].offset < SourceTags(nw, lo, hi, k)[j].offset
    decreases hi
  {
    if hi > lo {
      SourceTagsOrdered(nw, lo, hi - 1, k);
      SourceTagsSound(nw, lo, hi - 1, k);
      var prefix := SourceTags(nw, lo, hi - 1, k);
      forall i | 0 <= i < |prefix| ensures prefix[i].offset < nw + (hi - 1 - lo) {
        assert prefix[i] in prefix;
      }
    }
  }

  /** Interval 0 emits no tags at all. */
  lemma {:induction false} NoIntervalNoTags(nw: nat, lo: nat, hi: nat)
    ensures SourceTags(nw, lo, hi, 0) == []
    decreases hi
  {
    if hi > lo {
      NoIntervalNoTags(nw, lo, hi - 1);
    }
  }

  /** A positive multiple of a positive number is at least that number. */
  lemma MulAtLeast(x: int, k: int)
    requires x >= 1 && k > 0
    ensures x * k >= k
  {
    assert x * k == (x - 1) * k + k;
    assert (x - 1) * k >= 0;
  }

  /** Euclidean division has a unique quotient. */
  lemma DivUnique(a: int, k: int, q: int, r: int)
    requires 0 < k && 0 <= r < k && a == q * k + r
    ensures a / k == q
  {
    var q', r' := a / k, a % k;
    assert a == q' * k + r';
    assert (q' - q) * k == r - r';
    if q' > q {
      MulAtLeast(q' - q, k);
    } else if q' < q {
      MulAtLeast(q - q', k);
    }
  }

  /** One more value adds a tag exactly when it is a multiple of `k`. */
  lemma CeilStep(m: nat, k: nat)
    requires k >= 1
    ensures (m + k) / k == (m + k - 1) / k + (if m % k == 0 then 1 else 0)
  {
    var q, r := m / k, m % k;
    DivUnique(m + k, k, q + 1, r);
    if r == 0 {
      DivUnique(m + k - 1, k, q, k - 1);
    } else {
      DivUnique(m + k - 1, k, q + 1, r - 1);
    }
  }

  /** Closed form of the tag count from value 0: value 0 itself is a
      multiple, so `n` values carry `ceil(n / k)` tags, not `floor(n / k)`. */
  lemma {:induction false} MultiplesFromZero(n: nat, k: u32)
    requires k >= 1
    ensures Multiples(0, n, k) == (n + k - 1) / k
  {
    if n > 0 {
      MultiplesFromZero(n - 1, k);
      CeilStep(n - 1, k);
    }
  }

  /** The test driver's budget of 1000000 items with a tag every 101 values
      yields 9901 source tags. */
  lemma DriverTagCount()
    ensures Multiples(0, 1000000, 101) == 9901
  {
    MultiplesFromZero(1000000, 101);
  }

  class CntSource {
    /** `d_tag_interval`: tag every value that is a multiple of it; 0 = never. */
    var tagInterval: u32
    /** `d_tags`: number of tags attached since the last reset. */
    var tags: u32
    /** `d_cnt`: the next value to emit, i.e. items emitted since the last reset. */
    var cnt: u32
    /** `d_nitems`: the item budget. */
    const nitems: u32

    /** Counters never pass the budget, and there is at most one tag per item. */
    ghost predicate Valid()
      reads this
    {
      tags <= cnt <= nitems
    }

    /** The tag count agrees with the values emitted so far; holds from a
        reset for as long as the interval is not changed. */
    ghost predicate Counted()
      reads this
    {
      tags == Multiples(0, cnt, tagInterval)
    }

    /** The constructor takes a `size_t` and stores it in a `uint32_t`. */
    constructor (n: nat)
      ensures nitems == n % TWO_POW_32
      ensures tagInterval == 0 && tags == 0 && cnt == 0
      ensures Valid() && Counted()
    {
      nitems := n % TWO_POW_32;
      tagInterval := 0;
      tags := 0;
      cnt := 0;
    }

    /** One call of `work`: fill `o` with the next values, return how many,
        or -1 for end-of-stream; `added` are the tags it attaches to its
        output (`add_item_tag`). `nitemsWritten` is `nitems_written(0)`. */
    method Work(noutputItems: nat, o: array<u32>, nitemsWritten: nat) returns (r: int, added: seq<Tag>)
      requires Valid()
      requires noutputItems <= o.Length
      modifies this`cnt, this`tags, o
      ensures Valid()
      ensures r == -1 <==> old(cnt) >= nitems
      ensures r == -1 ==> cnt == old(cnt) == nitems && tags == old(tags) && o[..] == old(o[..])
      ensures r != -1 ==> r == Min(noutputItems, nitems - old(cnt)) && cnt == old(cnt) + r
      ensures forall n :: 0 <= n < r ==> o[n] == old(cnt) + n
      ensures forall n :: 0 <= n < o.Length && n >= r ==> o[n] == old(o[n])
      ensures added == SourceTags(nitemsWritten, old(cnt), cnt, tagInterval)
      ensures tags == old(tags) + |added| == old(tags) + Multiples(old(cnt), cnt, tagInterval)
      ensures forall t :: t in added ==>
                0 <= t.offset - nitemsWritten < r && o[t.offset - nitemsWritten] == t.value
      ensures old(Counted()) ==> Counted()
      ensures r == -1 && old(Counted()) ==> tags == Multiples(0, nitems, tagInterval)
    {
      if cnt >= nitems {
        return -1, [];
      }
      added := [];
      var n := 0;
      while n < noutputItems
        invariant 0 <= n <= noutputItems
        invariant cnt == old(cnt) + n <= nitems
        invariant tags <= cnt && tags == old(tags) + |added|
        invariant added == SourceTags(nitemsWritten, old(cnt), cnt, tagInterval)
        invariant forall m :: 0 <= m < n ==> o[m] == old(cnt) + m
        invariant forall m :: n <= m < o.Length ==> o[m] == old(o[m])
        invariant old(Counted()) ==> Counted()
      {
        if cnt == nitems {
          SourceTagsCount(nitemsWritten, old(cnt), cnt, tagInterval);
          SourceTagsSound(nitemsWritten, old(cnt), cnt, tagInterval);
          return n, added;
        }
        o[n] := cnt;
        if tagInterval != 0 && cnt % tagInterval == 0 {
          var nn := nitemsWritten + n;
          added := added + [Tag(nn, TAG_KEY, cnt)];
          tags := tags + 1;
        }
        cnt := cnt + 1;
        n := n + 1;
      }
      SourceTagsCount(nitemsWritten, old(cnt), cnt, tagInterval);
      SourceTagsSound(nitemsWritten, old(cnt), cnt, tagInterval);
      return noutputItems, added;
    }

    /** `reset_counters`: restart the count (the budget and interval stay). */
    method ResetCounters()
      modifies this`cnt, this`tags
      ensures cnt == 0 && tags == 0
      ensures Valid() && Counted()
    {
      cnt := 0;
      tags := 0;
    }

    /** `set_tag_interval`. */
    method SetTagInterval(x: u32)
      requires Valid()
      modifies this`tagInterval
      ensures tagInterval == x
      ensures Valid()
      ensures x == old(tagInterval) ==> (Counted() <==> old(Counted()))
    {
      tagInterval := x;
    }
  }
}
