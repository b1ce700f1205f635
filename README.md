# Buffer-test harness blocks, in Dafny

This project models the test harness in `main.cpp` that exercises a GNU Radio
flow graph. The harness has three small processing blocks:

- **`cnt_source`** emits the values `0, 1, 2, …` up to an item budget and
  then signals end-of-stream. It tags every item whose value is a multiple of
  its tag interval, and the tag carries that value.
- **`cnt_sink`** counts the items and tags it receives. For every tag it
  looks up an item by the tag's offset and counts the tags whose item does
  not equal the tag's value.
- **`hist_block`** is a pass-through. It reads its input through the
  look-back window with a clamped delay, `o[n] = i[n + history - delay]`.

It also models the scenario driver `do_the_test`. The driver is a function
from its flag word to the calls it makes on the graph, and the model adds the
pause protocol those calls have to follow. The function also takes the value
of the history guard at main.cpp:231. As written, that guard is false for
every flag word (see "## Findings"), so the program as written is
`TestSteps(t, NoHistoryGuardAsWritten(t))`. The protocol lemmas are proved
for either value of the guard, which covers the program as written and the
intended one.

Each block is a class whose fields are the block's counters. Its `work` is a
method over arrays whose contract gives the exact output and the new
counters. The scheduler's context is passed in as plain parameters:
`nitems_written(0)`, `nitems_read(0)`, `history()` and the tags that
`get_tags_in_window` returns. The getters (`get_counter`, `get_tags`,
`get_offset_tags`, `get_last_offset`, `get_delay`) are the classes' public
fields.

Integer widths are explicit:

- Items and counters are `uint32_t`.
- The sink's counters wrap mod 2^32 (`Items.Wrap32`, `Items.Inc32`).
- `d_last_tag_offset` keeps the difference truncated to `int32_t` (`Items.ToInt32`).
- The source's counters provably stay within the budget, so they never wrap.

Two reads and one write in the source have no bounds check. Each is a
precondition of its `work` method, because the source needs its caller to
meet it:

- `hist_block::work` must read inside its input (`PassThrough.ReadsInBounds`).
- `cnt_sink::work` must look up inside its input (`CntSinkBlock.Readable`).
- `cnt_source::work` must write inside its output buffer.

Separate lemmas say when the scheduler's usual window of
`noutput_items + history - 1` input items meets those preconditions and when
it does not:

- **`hist_block`:** the window is enough exactly when `1 <= delay <= history`.
  With the default delay of 0, the last read is one item past the input.
- **`cnt_sink`:** a lookup is inside the window only for tags at window
  position `history` or later.
- **Where the items come from** (`Items.WindowOf` states the layout: once
  `nitems_read >= history - 1`, input item `j` is the upstream item at offset
  `nitems_read - (history - 1) + j`): the sink checks each tag against the
  upstream item `2 * history - 1` positions earlier. The pass-through's output
  item `n` is the upstream item `1 - delay` positions after its own offset.

Counting ⌊n/k⌋ would miss value 0, which main.cpp:46 also tags. From value
0, `n` items at interval `k` carry ⌈n/k⌉ tags, so the driver's 1000000 items
at interval 101 carry 9901 tags (`CntSourceBlock.MultiplesFromZero`,
`CntSourceBlock.DriverTagCount`).

## Model

| member | source | states |
|---|---|---|
| Items.Wrap32 | main.cpp:116 | a `uint32_t` count that has not reached 2^32 is exact; beyond that it wraps |
| Items.Inc32Wrap | main.cpp:106 | one `++` on a wrapped counter wraps the count plus one |
| Items.ToInt32 | main.cpp:111 | assigning a difference to `int32_t` keeps it exactly when it fits in 32 signed bits |
| CntSourceBlock.CntSource.constructor | main.cpp:26-32 | the budget is the `size_t` argument reduced to 32 bits; interval, tags and counter start at 0 |
| CntSourceBlock.CntSource.Work | main.cpp:34-57 | returns -1 exactly when the counter has reached the budget, and then changes nothing; otherwise returns `min(noutput_items, budget - counter)`, writes `o[n] = counter + n` for those items and nothing else, advances the counter by that amount and stays within the budget; the tags it adds are exactly the tagged values, at their write offsets, carrying the item written there; the tag counter grows by their number; a run from reset to end-of-stream counts the tagged values in `[0, budget)` |
| CntSourceBlock.CntSource.ResetCounters | main.cpp:58-62 | counter and tag count are 0, and the tag count agrees with the emitted values again |
| CntSourceBlock.CntSource.SetTagInterval | main.cpp:67-70 | the interval is the argument; the counters keep their bound, and an unchanged interval keeps the tag count in step with the values |
| CntSourceBlock.SourceTagsCount | main.cpp:46-53 | one tag per tagged value in the emitted range |
| CntSourceBlock.SourceTagsSound | main.cpp:46-53 | every tag sits on a tagged value, at the offset where that value is written, with key `cnt_tag` and the value as its value |
| CntSourceBlock.SourceTagsComplete | main.cpp:46-53 | every tagged value in the emitted range gets its tag |
| CntSourceBlock.SourceTagsOrdered | main.cpp:48-50 | tags are added in strictly increasing offset order |
| CntSourceBlock.NoIntervalNoTags | main.cpp:46 | interval 0 adds no tags |
| CntSourceBlock.MultiplesFromZero | main.cpp:39-56 | from value 0, `n` values at interval `k >= 1` carry ⌈n/k⌉ tags, value 0 included |
| CntSourceBlock.DriverTagCount | main.cpp:224-230 | a budget of 1000000 at interval 101 yields 9901 tags |
| CntSinkBlock.CntSink.constructor | main.cpp:90-95 | all four counters start at 0 |
| CntSinkBlock.CntSink.Work | main.cpp:97-119 | returns `noutput_items`; the item counter grows by `noutput_items` and the tag counter by the number of window tags, both mod 2^32; the mismatch counter grows by the number of tags whose looked-up item differs from their value; the last offset is the truncated item-minus-value of the last such tag, and the old value when none mismatch |
| CntSinkBlock.CntSink.ResetCounters | main.cpp:120-125 | item, tag and mismatch counters are 0; the last offset is left as it was |
| CntSinkBlock.LookupIndexRange | main.cpp:103-108 | for a tag in the window the lookup index is below `noutput_items - history + 1`, and non-negative exactly at window position `history` or later |
| CntSinkBlock.WindowReadable | main.cpp:103-108 | with the scheduler's `noutput_items + history - 1` input items, every lookup is inside the input exactly when no tag sits in the first `history` window positions |
| CntSinkBlock.MismatchesAtMost | main.cpp:108-110 | the mismatch count never exceeds the tag count |
| CntSinkBlock.NoMismatchesIff | main.cpp:108-110 | no mismatch exactly when every tag's looked-up item equals its value |
| CntSinkBlock.LastDifferenceKept | main.cpp:108-112 | without a mismatch the last offset keeps its previous value |
| CntSinkBlock.LastDifferenceOfLastMismatch | main.cpp:108-112 | with a mismatch the last offset is the truncated difference of the last mismatching tag, and every later tag matches |
| CntSinkBlock.CheckedItemOffset | main.cpp:108 | under the scheduler's input layout each tag is compared with the upstream item `2 * history - 1` positions before its offset, and the mismatch count is 0 exactly when all those items equal the tag values |
| PassThrough.ReadsInBoundsIff | main.cpp:171-174 | the read-bounds predicate holds exactly when every read of the call is inside the input |
| PassThrough.WindowReadsInBounds | main.cpp:173 | with `noutput_items + history - 1` input items the reads fit exactly when `1 <= delay <= history`; delay 0 reads one item past the end |
| PassThrough.ClampDelay | main.cpp:181-186 | the kept delay is `min(x, history - 1)`, hence below the history |
| PassThrough.ClampedReadAhead | main.cpp:181-186 | after `set_delay` the read for output `n` is at index `n + 1` or later |
| PassThrough.ClampedWindowReads | main.cpp:181-186 | after `set_delay(x)` the scheduler's window suffices exactly when `x >= 1` and `history >= 2` |
| PassThrough.OutputOffset | main.cpp:171-174 | under the scheduler's input layout, output item `n` is the upstream item at offset `nitems_read + n + 1 - delay`, and all those offsets lie inside the upstream stream |
| PassThrough.HistBlock.constructor | main.cpp:157-162 | the delay starts at 0 |
| PassThrough.HistBlock.Work | main.cpp:164-176 | returns `noutput_items`, writes `o[n] = i[n + history - delay]` for every requested item, leaves the rest of `o` and all of `i` unchanged |
| PassThrough.HistBlock.SetDelay | main.cpp:181-186 | the delay becomes the request clamped to `history - 1` |
| TestDriver.NoHistoryGuardNeverHolds | main.cpp:231 | the guard as written, `!t&NO_HISTORY`, is false for every flag word |
| TestDriver.NoHistoryGuardIntended | main.cpp:231 | the intended guard holds exactly when `NO_HISTORY` is not set; at `t == 0` it differs from the written one |
| TestDriver.TestSteps | main.cpp:221-316 | the call list begins by setting the source's output multiple and tag interval; its third call sets the pass-through's history exactly when the guard of main.cpp:231 holds; it locks the graph exactly in the scenarios other than the baseline; it ends in `wait` |
| TestDriver.RunSetupBuild | main.cpp:229-250 | for either value of the history guard, block setup and the initial graph are all configuration done before `start` |
| TestDriver.RunLaunch | main.cpp:251-256 | `start` runs the graph; every scenario except the baseline waits while running and then pauses |
| TestDriver.RunAttachSink1 | main.cpp:287-299 | attaching the second sink begins and ends paused; when it detaches the sink again it first resumes, waits while running, and pauses |
| TestDriver.RunReconfigure | main.cpp:257-313 | the whole reconfiguration begins and ends paused |
| TestDriver.RunFinish | main.cpp:314-316 | resuming (unless baseline) and then `wait` ends the run |
| TestDriver.DriverFollowsProtocol | main.cpp:221-316 | for every flag word and either value of the history guard, the calls edit the graph only before `start` or while paused, wait only while running, pair every `lock` with an `unlock`, and end in `wait` |
| TestDriver.DriverFollowsProtocolBothGuards | main.cpp:221-316 | the program as written, with the guard `!t&NO_HISTORY`, and the intended program both follow that protocol |
| TestDriver.BaselineCalls | main.cpp:229-316 | the baseline scenario's whole call list: source setup, the history call only when the guard holds, the two connections, `start` and `wait`; it never locks or unlocks the graph |
| TestDriver.BaselineHistory | main.cpp:231-232 | as written, the baseline never calls `set_history(5000)` on the pass-through; with the intended guard it does |
| TestDriver.DelayLostAsWritten | main.cpp:229-234 | with the guard as written, every `DELAY` scenario leaves `cpy` at history 1 and delay 0 |
| TestDriver.DelayKeptAsIntended | main.cpp:229-234 | with the intended guard, a `DELAY` scenario without `NO_HISTORY` sets up `cpy` with history 5000 and delay 2000 |

## Left out

- The GNU Radio scheduler, `top_block`, buffers and the tag store are library code that is not part of this model. Their effect on a block enters only through the parameters of `work`: `nitems_written`, `nitems_read`, `history`, the window's tags and the input array.
- `set_history`, `set_output_multiple`, `declare_sample_delay`, `connect`, `disconnect`, `start`, `lock`, `unlock` and `wait` are library calls. The driver model records them as steps with the phase each one needs. It does not model what they do to buffers.
- The `std::atomic` counters and the cross-thread reads in `do_wait` are there for concurrent observation. Here the counters are plain fields, and a `do_wait` is a single step that needs a running graph.
- `do_wait`'s exit at the sample limit, the console output and `main`'s scenario list are process plumbing, left out.
- `pmt` encoding is left out. Tag keys are strings and tag values are integers.
- The `make`/`sptr` factories and the `GRSPTR` macros are pointer boilerplate, left out.
- End-to-end scenario results (items lost, mismatch counts after live reconfiguration) depend on the scheduler's buffer logic, which is not part of this model.
- CntSourceBlock.CntSource.Work: the absolute offset `nitems_written(0) + n` is modelled as an unbounded number, without the `uint64_t` wrap-around.
- The getters are the classes' public fields rather than separate functions.

## Findings

| source | as written | input that shows it | evidently intended | confidence | as-written member | corrected member |
|---|---|---|---|---|---|---|
| main.cpp:231 | `if(!t&NO_HISTORY)` parses as `(!t) & 0x2000`, which is 0 for every `t`, so `cpy->set_history(5000)` never runs; the `DELAY` scenarios then clamp `set_delay(2000)` against history 1 and keep delay 0 | `t = 0` (baseline, where a history of 5000 is expected) or `t = DELAY` (0x4000) | `if(!(t & NO_HISTORY))`: history 5000 unless `NO_HISTORY` is set, and delay 2000 in the `DELAY` scenarios | high, not executed | TestDriver.DelayLostAsWritten | TestDriver.DelayKeptAsIntended |
