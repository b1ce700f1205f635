/** The scenario driver `do_the_test` (main.cpp:191-316) as a pure function
    from its flag word to the sequence of calls it makes on the flow graph
    and its blocks, with the protocol those calls follow. */
module TestDriver {
  import opened Items
  import PassThrough

  const CONNECT_SINK: bv32         := 0x0000_0001
  const DISCONNECT_SINK: bv32      := 0x0000_0002
  const CHANGE_PROC: bv32          := 0x0000_0004
  const EXPAND_ALIGN_SRC: bv32     := 0x0000_0008
  const SHRINK_ALIGN_SRC: bv32     := 0x0000_0010
  const EXPAND_HISTORY: bv32       := 0x0000_0020
  const SHRINK_HISTORY: bv32       := 0x0000_0040
  const ADD_LARGE_HISTORY: bv32    := 0x0000_0080
  const REMOVE_LARGE_HISTORY: bv32 := 0x0000_0100
  const ADD_LARGE_ALIGN: bv32      := 0x0000_0200
  const REMOVE_LARGE_ALIGN: bv32   := 0x0000_0400
  const CHANGE_LARGE_HIST: bv32    := 0x0000_0800
  const CHANGE_SMALL_HIST: bv32    := 0x0000_1000
  const NO_HISTORY: bv32           := 0x0000_2000
  const DELAY: bv32                := 0x0000_4000
  const DELAY_DECL: bv32           := 0x0000_8000

  /** `src_item_count` and `test_item_diff`. */
  const SRC_ITEM_COUNT: nat := 1000000
  const TEST_ITEM_DIFF: nat := 50000

  datatype Option<T> = None | Some(value: T)

  /** The blocks of one scenario: `src`, `cpy`, `dst0`, `dst1`, `dst2`. */
  datatype Block = Src | Cpy | Dst0 | Dst1 | Dst2

  /** A history value the scheduler accepts (`history()` is at least 1). */
  type Hist = h: u32 | h >= 1 witness 1

  /** One call the driver makes; every connection is port 0 to port 0. */
  datatype Step =
    | SetOutputMultiple(block: Block, multiple: nat)
    | SetTagInterval(interval: u32)
    | SetHistory(block: Block, history: Hist)
    | SetDelay(delay: u32)
    | DeclareSampleDelay(declared: nat)
    | Connect(from: Block, to: Block)
    | Disconnect(from: Block, to: Block)
    | ReplaceCpy
    | Start(maxNoutput: nat)
    | WaitItems(more: nat)
    | Lock
    | Unlock
    | WaitDone
  {
    /** Calls that configure blocks or edit the graph. */
    predicate IsConfig() {
      SetOutputMultiple? || SetTagInterval? || SetHistory? || SetDelay?
      || DeclareSampleDelay? || Connect? || Disconnect? || ReplaceCpy?
    }
  }

  /** `t & flag` taken as a condition. */
  predicate Has(t: bv32, flag: bv32) {
    t & flag != 0
  }

  /** The guard of main.cpp:231 as written, `!t&NO_HISTORY`: `!` binds
      tighter than `&`, so the boolean `!t` (0 or 1) is masked with 0x2000. */
  predicate NoHistoryGuardAsWritten(t: bv32) {
    (if t == 0 then 1 else 0) as bv32 & NO_HISTORY != 0
  }

  /** The guard as evidently intended, `!(t & NO_HISTORY)`. */
  predicate NoHistoryGuard(t: bv32) {
    t & NO_HISTORY == 0
  }

  /** As written, the guard holds for no flag word at all, so the
      pass-through never gets its history of 5000. */
  lemma NoHistoryGuardNeverHolds(t: bv32)
    ensures !NoHistoryGuardAsWritten(t)
  {
    if t == 0 {
      assert (1 as bv32) & NO_HISTORY == 0;
    } else {
      assert (0 as bv32) & NO_HISTORY == 0;
    }
  }

  /** The intended guard holds exactly for the scenarios without `NO_HISTORY`;
      it differs from the written one for the baseline scenario `t == 0`. */
  lemma NoHistoryGuardIntended(t: bv32)
    ensures NoHistoryGuard(t) <==> !Has(t, NO_HISTORY)
    ensures NoHistoryGuard(0) && !NoHistoryGuardAsWritten(0)
  {
    NoHistoryGuardNeverHolds(0);
  }

  /** main.cpp:229-236, with the history guard's value given. */
  function Setup(t: bv32, historyGuard: bool): seq<Step> {
    [SetOutputMultiple(Src, 100), SetTagInterval(101)]
    + (if historyGuard then [SetHistory(Cpy, 5000)] else [])
    + (if Has(t, DELAY) then [SetDelay(2000)] else [])
    + (if Has(t, DELAY_DECL) then [DeclareSampleDelay(2000)] else [])
  }

  /** main.cpp:239-250: the initial graph. */
  function Build(t: bv32): seq<Step> {
    [Connect(Src, Cpy), Connect(Cpy, Dst0)]
    + (if Has(t, REMOVE_LARGE_HISTORY) then [SetHistory(Dst2, 7000), Connect(Src, Dst2)] else [])
    + (if Has(t, REMOVE_LARGE_ALIGN) then [SetOutputMultiple(Dst2, 200), Connect(Src, Dst2)] else [])
  }

  /** main.cpp:251-256: start, and for every scenario but the baseline wait
      for 50000 more source items and pause. */
  function Launch(t: bv32): seq<Step> {
    [Start(4096)] + (if t != 0 then [WaitItems(TEST_ITEM_DIFF), Lock] else [])
  }

  /** main.cpp:257-286: history, processing block and alignment changes. */
  function Retune(t: bv32): seq<Step> {
    (if Has(t, EXPAND_HISTORY) then [SetHistory(Cpy, 5500)] else [])
    + (if Has(t, SHRINK_HISTORY) then [SetHistory(Cpy, 3500)] else [])
    + (if Has(t, CHANGE_PROC) then
         [Disconnect(Src, Cpy), Disconnect(Cpy, Dst0), ReplaceCpy,
          SetHistory(Cpy, if Has(t, CHANGE_LARGE_HIST) then 6000
                          else if Has(t, CHANGE_SMALL_HIST) then 3000 else 5000),
          Connect(Src, Cpy), Connect(Cpy, Dst0)]
       else [])
    + (if Has(t, EXPAND_ALIGN_SRC) then [SetOutputMultiple(Src, 200)] else [])
    + (if Has(t, SHRINK_ALIGN_SRC) then [SetOutputMultiple(Src, 64)] else [])
  }

  /** main.cpp:287-299: attach the second sink, and optionally run a while
      and detach it again. */
  function AttachSink1(t: bv32): seq<Step> {
    if Has(t, CONNECT_SINK) then
      [Connect(Cpy, Dst1)]
      + (if Has(t, DISCONNECT_SINK) then [Unlock, WaitItems(TEST_ITEM_DIFF), Lock, Disconnect(Cpy, Dst1)] else [])
    else []
  }

  /** main.cpp:300-313: detach or attach the third sink. */
  function RewireDst2(t: bv32): seq<Step> {
    (if Has(t, REMOVE_LARGE_HISTORY | REMOVE_LARGE_ALIGN) then [Disconnect(Src, Dst2)] else [])
    + (if Has(t, ADD_LARGE_HISTORY) then [SetHistory(Dst2, 7000), Connect(Src, Dst2)] else [])
    + (if Has(t, ADD_LARGE_ALIGN) then [SetOutputMultiple(Dst2, 500), Connect(Src, Dst2)] else [])
  }

  /** main.cpp:314-316: resume and wait for the end of the run. */
  function Finish(t: bv32): seq<Step> {
    (if t != 0 then [Unlock] else []) + [WaitDone]
  }

  /** main.cpp:257-313: everything done while paused. */
  function Reconfigure(t: bv32): seq<Step> {
    Retune(t) + AttachSink1(t) + RewireDst2(t)
  }

  /** Every call `do_the_test(t, …)` makes on the graph and its blocks, in
      order, given the value of the history guard of main.cpp:231: the
      program as written runs `TestSteps(t, NoHistoryGuardAsWritten(t))`,
      the intended program `TestSteps(t, NoHistoryGuard(t))`. The driver
      always begins by configuring the source, sets the pass-through's
      history as its third call exactly when the guard holds, pauses the
      graph exactly in the scenarios other than the baseline, and ends in
      `wait`. */
  function TestSteps(t: bv32, historyGuard: bool): (r: seq<Step>)
    ensures |r| >= 3 && r[0] == SetOutputMultiple(Src, 100) && r[1] == SetTagInterval(101)
    ensures r[2] == SetHistory(Cpy, 5000) <==> historyGuard
    ensures r[|r| - 1] == WaitDone
    ensures Lock in r <==> t != 0
  {
    Setup(t, historyGuard) + Build(t) + Launch(t) + Reconfigure(t) + Finish(t)
  }

  /** Where the scheduler stands for the driver. */
  datatype Phase = Building | Running | Paused | Done

  /** What a call needs and does: configuration and graph edits only while
      the graph is not running; `do_wait` only while it runs (otherwise the
      source counter never moves); `lock` pauses, `unlock` resumes, `wait`
      ends a running graph. */
  function Next(s: Step, p: Phase): Option<Phase> {
    if s.IsConfig() then (if p == Building || p == Paused then Some(p) else None)
    else match s
      case Start(_) => if p == Building then Some(Running) else None
      case WaitItems(_) => if p == Running then Some(Running) else None
      case Lock => if p == Running then Some(Paused) else None
      case Unlock => if p == Paused then Some(Running) else None
      case WaitDone => if p == Running then Some(Done) else None
      case _ => None
  }

  /** The phase after a sequence of calls, or `None` once a call breaks the protocol. */
  function Run(steps: seq<Step>, p: Phase): Option<Phase>
    decreases |steps|
  {
    if steps == [] then Some(p)
    else match Next(steps[0], p)
      case None => None
      case Some(q) => Run(steps[1..], q)
  }

  /** Running two call sequences back to back. */
  lemma {:induction false} RunAppend(a: seq<Step>, b: seq<Step>, p: Phase)
    ensures Run(a + b, p) == if Run(a, p).None? then None else Run(b, Run(a, p).value)
    decreases |a|
  {
    if a == [] {
      assert a + b == b;
    } else {
      assert (a + b)[0] == a[0];
      assert (a + b)[1..] == a[1..] + b;
      match Next(a[0], p)
      case None =>
      case Some(q) => RunAppend(a[1..], b, q);
    }
  }

  /** Running a single call. */
  lemma RunSingle(s: Step, p: Phase)
    ensures Run([s], p) == Next(s, p)
  {
    assert [s][1..] == [];
  }

  /** Running a call followed by more calls. */
  lemma RunCons(s: Step, rest: seq<Step>, p: Phase)
    ensures Run([s] + rest, p) == if Next(s, p).None? then None else Run(rest, Next(s, p).value)
  {
    assert ([s] + rest)[1..] == rest;
  }

  /** Configuration calls keep a building or paused graph where it is. */
  lemma {:induction false} RunConfig(steps: seq<Step>, p: Phase)
    requires p == Building || p == Paused
    requires forall s :: s in steps ==> s.IsConfig()
    ensures Run(steps, p) == Some(p)
    decreases |steps|
  {
    if steps != [] {
      assert steps[0] in steps;
      assert forall s :: s in steps[1..] ==> s in steps;
      RunConfig(steps[1..], p);
    }
  }

  lemma RunSetupBuild(t: bv32, historyGuard: bool)
    ensures Run(Setup(t, historyGuard) + Build(t), Building) == Some(Building)
  {
    RunConfig(Setup(t, historyGuard) + Build(t), Building);
  }

  lemma RunLaunch(t: bv32)
    ensures Run(Launch(t), Building) == Some(if t != 0 then Paused else Running)
  {
    if t != 0 {
      assert Launch(t) == [Start(4096)] + ([WaitItems(TEST_ITEM_DIFF)] + [Lock]);
      RunCons(Start(4096), [WaitItems(TEST_ITEM_DIFF)] + [Lock], Building);
      RunCons(WaitItems(TEST_ITEM_DIFF), [Lock], Running);
      RunSingle(Lock, Running);
    } else {
      RunSingle(Start(4096), Building);
    }
  }

  lemma RunAttachSink1(t: bv32)
    ensures Run(AttachSink1(t), Paused) == Some(Paused)
  {
    if Has(t, CONNECT_SINK) && Has(t, DISCONNECT_SINK) {
      var tail := [Lock] + [Disconnect(Cpy, Dst1)];
      assert AttachSink1(t) == [Connect(Cpy, Dst1)] + ([Unlock] + ([WaitItems(TEST_ITEM_DIFF)] + tail));
      RunCons(Connect(Cpy, Dst1), [Unlock] + ([WaitItems(TEST_ITEM_DIFF)] + tail), Paused);
      RunCons(Unlock, [WaitItems(TEST_ITEM_DIFF)] + tail, Paused);
      RunCons(WaitItems(TEST_ITEM_DIFF), tail, Running);
      RunCons(Lock, [Disconnect(Cpy, Dst1)], Running);
      RunSingle(Disconnect(Cpy, Dst1), Paused);
    } else {
      RunConfig(AttachSink1(t), Paused);
    }
  }

  lemma RunReconfigure(t: bv32)
    ensures Run(Reconfigure(t), Paused) == Some(Paused)
  {
    RunConfig(Retune(t), Paused);
    RunAttachSink1(t);
    RunConfig(RewireDst2(t), Paused);
    RunAppend(Retune(t), AttachSink1(t), Paused);
    RunAppend(Retune(t) + AttachSink1(t), RewireDst2(t), Paused);
  }

  lemma RunFinish(t: bv32)
    ensures Run(Finish(t), if t != 0 then Paused else Running) == Some(Done)
  {
    if t != 0 {
      RunCons(Unlock, [WaitDone], Paused);
    } else {
      assert Finish(t) == [WaitDone];
    }
    RunSingle(WaitDone, Running);
  }

  /** For every flag word, and whichever way the history guard of
      main.cpp:231 evaluates (as written or as intended), the driver follows
      the pause protocol: it edits the graph only before `start` or while
      paused, waits for items only while running, pairs every `lock` with a
      later `unlock`, and ends in `wait`. */
  lemma {:induction false} DriverFollowsProtocol(t: bv32, historyGuard: bool)
    ensures Run(TestSteps(t, historyGuard), Building) == Some(Done)
  {
    var sb := Setup(t, historyGuard) + Build(t);
    var reconf := Reconfigure(t);
    var mid: Phase := if t != 0 then Paused else Running;
    RunSetupBuild(t, historyGuard);
    RunLaunch(t);
    RunFinish(t);
    if t != 0 {
      RunReconfigure(t);
    } else {
      assert reconf == [];
    }
    assert Run(reconf, mid) == Some(mid);
    RunAppend(sb, Launch(t), Building);
    RunAppend(sb + Launch(t), reconf, Building);
    RunAppend(sb + Launch(t) + reconf, Finish(t), Building);
  }

  /** The program as written and the intended program both follow the
      pause protocol. */
  lemma DriverFollowsProtocolBothGuards(t: bv32)
    ensures Run(TestSteps(t, NoHistoryGuardAsWritten(t)), Building) == Some(Done)
    ensures Run(TestSteps(t, NoHistoryGuard(t)), Building) == Some(Done)
  {
    DriverFollowsProtocol(t, NoHistoryGuardAsWritten(t));
    DriverFollowsProtocol(t, NoHistoryGuard(t));
  }

  /** The whole call list of the baseline scenario `t == 0`: it never locks
      or unlocks the graph, and it sets the pass-through's history only when
      the guard holds. */
  lemma BaselineCalls(historyGuard: bool)
    ensures TestSteps(0, historyGuard)
            == [SetOutputMultiple(Src, 100), SetTagInterval(101)]
               + (if historyGuard then [SetHistory(Cpy, 5000)] else [])
               + [Connect(Src, Cpy), Connect(Cpy, Dst0), Start(4096), WaitDone]
    ensures Lock !in TestSteps(0, historyGuard) && Unlock !in TestSteps(0, historyGuard)
  {
    assert !Has(0, DELAY) && !Has(0, DELAY_DECL);
    assert Build(0) == [Connect(Src, Cpy), Connect(Cpy, Dst0)];
    assert Reconfigure(0) == [];
  }

  /** As written, the baseline scenario never gives the pass-through its
      history of 5000; as intended, it does. */
  lemma BaselineHistory()
    ensures SetHistory(Cpy, 5000) !in TestSteps(0, NoHistoryGuardAsWritten(0))
    ensures SetHistory(Cpy, 5000) in TestSteps(0, NoHistoryGuard(0))
  {
    NoHistoryGuardNeverHolds(0);
    BaselineCalls(false);
    BaselineCalls(true);
  }

  /** History and delay of the pass-through `cpy`. */
  datatype CpyConfig = CpyConfig(history: Hist, delay: u32)

  /** A freshly made `hist_block` under the scheduler's default history. */
  const FRESH_CPY := CpyConfig(1, 0)

  /** How one call changes `cpy`: `set_history` replaces its history (the
      delay is not re-clamped), `set_delay` clamps against the current
      history, `hist_block::make()` starts over. */
  function StepCpy(s: Step, c: CpyConfig): CpyConfig {
    match s
    case SetHistory(Cpy, h) => c.(history := h)
    case SetDelay(x) => c.(delay := PassThrough.ClampDelay(x, c.history))
    case ReplaceCpy => FRESH_CPY
    case _ => c
  }

  /** How a call sequence changes `cpy`. */
  function ApplyToCpy(steps: seq<Step>, c: CpyConfig): CpyConfig
    decreases |steps|
  {
    if steps == [] then c else ApplyToCpy(steps[1..], StepCpy(steps[0], c))
  }

  lemma ApplyCons(s: Step, rest: seq<Step>, c: CpyConfig)
    ensures ApplyToCpy([s] + rest, c) == ApplyToCpy(rest, StepCpy(s, c))
  {
    assert ([s] + rest)[1..] == rest;
  }

  /** As written, the delay scenarios request a delay of 2000 from a block
      whose history is still 1, so the block keeps a delay of 0. */
  lemma DelayLostAsWritten(t: bv32)
    requires Has(t, DELAY)
    ensures ApplyToCpy(Setup(t, NoHistoryGuardAsWritten(t)), FRESH_CPY) == FRESH_CPY
  {
    NoHistoryGuardNeverHolds(t);
    var decl: seq<Step> := if Has(t, DELAY_DECL) then [DeclareSampleDelay(2000)] else [];
    assert Setup(t, NoHistoryGuardAsWritten(t))
           == [SetOutputMultiple(Src, 100)] + ([SetTagInterval(101)] + ([SetDelay(2000)] + decl));
    ApplyCons(SetOutputMultiple(Src, 100), [SetTagInterval(101)] + ([SetDelay(2000)] + decl), FRESH_CPY);
    ApplyCons(SetTagInterval(101), [SetDelay(2000)] + decl, FRESH_CPY);
    ApplyCons(SetDelay(2000), decl, FRESH_CPY);
    if decl != [] {
      ApplyCons(DeclareSampleDelay(2000), [], FRESH_CPY);
    }
  }

  /** With the intended guard, the delay scenarios set up `cpy` with history
      5000 and keep the requested delay of 2000. */
  lemma DelayKeptAsIntended(t: bv32)
    requires Has(t, DELAY) && !Has(t, NO_HISTORY)
    ensures ApplyToCpy(Setup(t, NoHistoryGuard(t)), FRESH_CPY) == CpyConfig(5000, 2000)
  {
    var decl: seq<Step> := if Has(t, DELAY_DECL) then [DeclareSampleDelay(2000)] else [];
    var c1 := CpyConfig(5000, 0);
    var c2 := CpyConfig(5000, 2000);
    assert Setup(t, NoHistoryGuard(t))
           == [SetOutputMultiple(Src, 100)] + ([SetTagInterval(101)] + ([SetHistory(Cpy, 5000)] + ([SetDelay(2000)] + decl)));
    ApplyCons(SetOutputMultiple(Src, 100), [SetTagInterval(101)] + ([SetHistory(Cpy, 5000)] + ([SetDelay(2000)] + decl)), FRESH_CPY);
    ApplyCons(SetTagInterval(101), [SetHistory(Cpy, 5000)] + ([SetDelay(2000)] + decl), FRESH_CPY);
    ApplyCons(SetHistory(Cpy, 5000), [SetDelay(2000)] + decl, FRESH_CPY);
    ApplyCons(SetDelay(2000), decl, c1);
    if decl != [] {
      ApplyCons(DeclareSampleDelay(2000), [], c2);
    }
  }
}
