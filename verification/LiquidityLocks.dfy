/** The three flags of the XRPL liquidity strategy as locks, over every interleaving. */
module LiquidityLocks {
  import opened TriggeredLiquidity

  /** Coroutines between taking and giving back the opening flag. */
  predicate Opens(pc: Pc) { pc == PoolAwaited || pc == QuoteAwaited || pc == AddAwaited }
  predicate Removes(pc: Pc) { pc == RemoveAwaited }

  function Count(tasks: seq<Pc>, p: Pc -> bool): nat {
    if tasks == [] then 0
    else Count(tasks[..|tasks| - 1], p) + if p(tasks[|tasks| - 1]) then 1 else 0
  }

  function One(p: Pc -> bool, pc: Pc): nat { if p(pc) then 1 else 0 }

  lemma {:induction false} CountConcat(a: seq<Pc>, b: seq<Pc>, p: Pc -> bool)
    ensures Count(a + b, p) == Count(a, p) + Count(b, p)
  {
    if b == [] {
      assert a + b == a;
    } else {
      assert (a + b)[..|a + b| - 1] == a + b[..|b| - 1];
      CountConcat(a, b[..|b| - 1], p);
    }
  }

  lemma CountOne(pc: Pc, p: Pc -> bool)
    ensures Count([pc], p) == One(p, pc)
  {
    assert [pc][..0] == [];
  }

  lemma CountAround(tasks: seq<Pc>, k: nat, p: Pc -> bool)
    requires k < |tasks|
    ensures Count(tasks, p) == Count(tasks[..k], p) + One(p, tasks[k]) + Count(tasks[k + 1..], p)
  {
    hide Count, One;
    assert tasks == tasks[..k] + [tasks[k]] + tasks[k + 1..];
    CountConcat(tasks[..k] + [tasks[k]], tasks[k + 1..], p);
    CountConcat(tasks[..k], [tasks[k]], p);
    CountOne(tasks[k], p);
  }

  /** Moving one coroutine changes the count by that coroutine alone. */
  lemma CountAt(tasks: seq<Pc>, k: nat, pc: Pc, p: Pc -> bool)
    requires k < |tasks|
    ensures Count(tasks[k := pc], p) == Count(tasks, p) - One(p, tasks[k]) + One(p, pc)
  {
    hide Count, One;
    var after := tasks[k := pc];
    CountAround(tasks, k, p);
    CountAround(after, k, p);
    assert after[..k] == tasks[..k] && after[k + 1..] == tasks[k + 1..];
  }

  lemma CountAtLeast(tasks: seq<Pc>, k: nat, p: Pc -> bool)
    requires k < |tasks| && p(tasks[k])
    ensures Count(tasks, p) >= 1
  {
    CountAround(tasks, k, p);
  }

  lemma CountTwo(tasks: seq<Pc>, j: nat, k: nat, p: Pc -> bool)
    requires j < k < |tasks| && p(tasks[j]) && p(tasks[k])
    ensures Count(tasks, p) >= 2
  {
    CountAround(tasks, k, p);
    CountAtLeast(tasks[..k], j, p);
  }

  // ------------------------------------------------------------------ the invariant

  /** Each flag is up exactly while one coroutine holds it, and nothing opens an open position. */
  ghost predicate Locked(s: State) {
    && Count(s.tasks, Opens) == (if s.opening then 1 else 0)
    && Count(s.tasks, Removes) == (if s.closing then 1 else 0)
    && (s.opening ==> !s.isOpen)
  }

  /** What one coroutine needs to know about the flags. */
  ghost predicate Holds(s: State, k: nat) {
    && k < |s.tasks|
    && (Opens(s.tasks[k]) ==> s.opening) && (Removes(s.tasks[k]) ==> s.closing) && (s.opening ==> !s.isOpen)
  }

  /** Only coroutine `k` moves, and it takes and releases the flags as its position says. */
  ghost predicate Balanced(s: State, k: nat, s': State)
    requires k < |s.tasks|
  {
    && |s'.tasks| == |s.tasks| && s'.tasks == s.tasks[k := s'.tasks[k]]
    && (s'.opening == if Opens(s.tasks[k]) == Opens(s'.tasks[k]) then s.opening else Opens(s'.tasks[k]))
    && (Opens(s'.tasks[k]) && !Opens(s.tasks[k]) ==> !s.opening)
    && (s'.closing == if Removes(s.tasks[k]) == Removes(s'.tasks[k]) then s.closing else Removes(s'.tasks[k]))
    && (Removes(s'.tasks[k]) && !Removes(s.tasks[k]) ==> !s.closing)
    && (s'.opening ==> !s'.isOpen)
  }

  lemma OpeningBalanced(s: State, k: nat, reply: Reply, c: Config)
    requires Holds(s, k)
    ensures s.tasks[k] == CheckScheduled ==> Balanced(s, k, StartCheck(s, k))
    ensures s.tasks[k] == PoolAwaited ==> Balanced(s, k, PoolSeen(s, k, reply, c))
  {
    hide TriggerMet, RangeLow, RangeHigh;
  }

  lemma AddingBalanced(s: State, k: nat, reply: Reply)
    requires Holds(s, k)
    ensures s.tasks[k] == QuoteAwaited ==> Balanced(s, k, QuoteSeen(s, k, reply))
    ensures s.tasks[k] == AddAwaited ==> Balanced(s, k, AddSeen(s, k, reply))
    ensures s.tasks[k] == BalanceScheduled ==> Balanced(s, k, CheckBalance(s, k))
  {
    hide MovedSomething;
  }

  lemma ClosingBalanced(s: State, k: nat, reply: Reply)
    requires Holds(s, k)
    ensures s.tasks[k] == MonitorScheduled ==> Balanced(s, k, StartMonitor(s, k))
    ensures s.tasks[k] == CloseScheduled ==> Balanced(s, k, ClosePosition(s, k))
    ensures s.tasks[k] == RemoveAwaited ==> Balanced(s, k, RemoveSeen(s, k, reply))
  {
    hide MovedSomething;
  }

  lemma MonitorBalanced(s: State, k: nat, reply: Reply, now: real, c: Config)
    requires Holds(s, k) && s.tasks[k] == MonitorAwaited
    ensures Balanced(s, k, MonitorSeen(s, k, reply, now, c))
  {
    hide LowerBuffered, UpperBuffered;
  }

  lemma RunTaskBalanced(s: State, k: nat, reply: Reply, now: real, c: Config)
    requires Holds(s, k)
    ensures Balanced(s, k, RunTask(s, k, reply, now, c))
  {
    hide StartCheck, PoolSeen, QuoteSeen, AddSeen, CheckBalance, StartMonitor, MonitorSeen, ClosePosition, RemoveSeen;
    match s.tasks[k]
    case CheckScheduled => OpeningBalanced(s, k, reply, c);
    case PoolAwaited => OpeningBalanced(s, k, reply, c);
    case QuoteAwaited => AddingBalanced(s, k, reply);
    case AddAwaited => AddingBalanced(s, k, reply);
    case BalanceScheduled => AddingBalanced(s, k, reply);
    case MonitorAwaited => MonitorBalanced(s, k, reply, now, c);
    case BalanceAwaited =>
    case Finished =>
    case _ => ClosingBalanced(s, k, reply);
  }

  lemma BalancedKeepsLocks(s: State, k: nat, s': State)
    requires Locked(s) && k < |s.tasks| && Balanced(s, k, s')
    ensures Locked(s')
  {
    hide Count;
    CountAt(s.tasks, k, s'.tasks[k], Opens);
    CountAt(s.tasks, k, s'.tasks[k], Removes);
    LockedHolds(s, k);
  }

  lemma LockedHolds(s: State, k: nat)
    requires Locked(s) && k < |s.tasks|
    ensures Holds(s, k)
  {
    hide Count;
    if Opens(s.tasks[k]) {
      CountAtLeast(s.tasks, k, Opens);
    }
    if Removes(s.tasks[k]) {
      CountAtLeast(s.tasks, k, Removes);
    }
  }

  lemma RunTaskKeepsLocks(s: State, k: nat, reply: Reply, now: real, c: Config)
    requires Locked(s) && k < |s.tasks|
    ensures Locked(RunTask(s, k, reply, now, c))
  {
    hide *;
    LockedHolds(s, k);
    RunTaskBalanced(s, k, reply, now, c);
    BalancedKeepsLocks(s, k, RunTask(s, k, reply, now, c));
  }

  // ------------------------------------------------------------------ runs

  datatype Happening = TickAt(now: real, up: bool) | StopRequested | Continued(k: nat, reply: Reply, now: real)

  ghost predicate Step(s: State, h: Happening, s': State, c: Config) {
    match h
    case TickAt(now, up) => s' == Tick(s, now, up, c)
    case StopRequested => s' == Stop(s)
    case Continued(k, reply, now) => k < |s.tasks| && s' == RunTask(s, k, reply, now, c)
  }

  ghost predicate Fresh(s: State) {
    && !s.opening && !s.isOpen && !s.closing && s.tasks == []
    && s.lower.None? && s.upper.None? && s.outSince.None? && s.pool.None?
  }

  ghost predicate Run(ss: seq<State>, hs: seq<Happening>, c: Config) {
    && |ss| == |hs| + 1 && Fresh(ss[0])
    && forall i | 0 <= i < |hs| :: Step(ss[i], hs[i], ss[i + 1], c)
  }

  lemma StepKeepsLocks(s: State, h: Happening, s': State, c: Config)
    requires Locked(s) && Step(s, h, s', c)
    ensures Locked(s')
  {
    hide Count, RunTask;
    match h
    case Continued(k, reply, now) => RunTaskKeepsLocks(s, k, reply, now, c);
    case _ =>
      forall p: Pc -> bool, extra: seq<Pc> ensures Count(s.tasks + extra, p) == Count(s.tasks, p) + Count(extra, p) {
        CountConcat(s.tasks, extra, p);
      }
      NewTasksHoldNothing();
  }

  lemma NewTasksHoldNothing()
    ensures forall p | p in {Opens, Removes} ::
              Count([CheckScheduled], p) == Count([CloseScheduled], p) == Count([MonitorScheduled, BalanceScheduled], p) == 0
  {
  }

  lemma {:induction false} RunKeepsLocks(ss: seq<State>, hs: seq<Happening>, c: Config, i: nat)
    requires Run(ss, hs, c) && i < |ss|
    ensures Locked(ss[i])
  {
    hide Step;
    if i > 0 {
      RunKeepsLocks(ss, hs, c, i - 1);
      assert Step(ss[i - 1], hs[i - 1], ss[i], c);
      StepKeepsLocks(ss[i - 1], hs[i - 1], ss[i], c);
    }
  }

  /** In every interleaving of any number of coroutines: at most one opening sequence is in flight,
      it holds the opening flag throughout and no position is open meanwhile, and at most one
      removal is in flight, under the closing flag. */
  lemma MutualExclusion(ss: seq<State>, hs: seq<Happening>, c: Config, i: nat, j: nat, k: nat)
    requires Run(ss, hs, c) && i < |ss| && j < |ss[i].tasks| && k < |ss[i].tasks|
    ensures Opens(ss[i].tasks[k]) ==> ss[i].opening && !ss[i].isOpen
    ensures Removes(ss[i].tasks[k]) ==> ss[i].closing
    ensures Opens(ss[i].tasks[j]) && Opens(ss[i].tasks[k]) ==> j == k
    ensures Removes(ss[i].tasks[j]) && Removes(ss[i].tasks[k]) ==> j == k
  {
    hide Run, Count;
    RunKeepsLocks(ss, hs, c, i);
    var tasks := ss[i].tasks;
    if Opens(tasks[k]) {
      CountAtLeast(tasks, k, Opens);
    }
    if Removes(tasks[k]) {
      CountAtLeast(tasks, k, Removes);
    }
    var low, high := if j < k then j else k, if j < k then k else j;
    if low < high && Opens(tasks[j]) && Opens(tasks[k]) {
      CountTwo(tasks, low, high, Opens);
    }
    if low < high && Removes(tasks[j]) && Removes(tasks[k]) {
      CountTwo(tasks, low, high, Removes);
    }
  }

  // ------------------------------------------------------------------ positions opened and closed

  /** A step in which the pool confirms that tokens went in. */
  predicate Adds(s: State, h: Happening) {
    h.Continued? && h.k < |s.tasks| && s.tasks[h.k] == AddAwaited
    && h.reply.Moved? && (h.reply.base != 0.0 || h.reply.quote != 0.0)
  }

  predicate Takes(s: State, h: Happening) {
    h.Continued? && h.k < |s.tasks| && s.tasks[h.k] == RemoveAwaited
    && h.reply.Moved? && (h.reply.base != 0.0 || h.reply.quote != 0.0)
  }

  function AddCount(ss: seq<State>, hs: seq<Happening>, i: nat): nat
    requires |ss| == |hs| + 1 && i < |ss|
  {
    if i == 0 then 0 else AddCount(ss, hs, i - 1) + if Adds(ss[i - 1], hs[i - 1]) then 1 else 0
  }

  function TakeCount(ss: seq<State>, hs: seq<Happening>, i: nat): nat
    requires |ss| == |hs| + 1 && i < |ss|
  {
    if i == 0 then 0 else TakeCount(ss, hs, i - 1) + if Takes(ss[i - 1], hs[i - 1]) then 1 else 0
  }

  function Held(s: State): nat { if s.isOpen then 1 else 0 }

  /** A confirmed add finds no open position, and only confirmed adds and removals change the flag. */
  lemma HoldingStep(s: State, h: Happening, s': State, c: Config)
    requires Locked(s) && Step(s, h, s', c)
    ensures Adds(s, h) ==> Held(s) == 0 && Held(s') == 1
    ensures Takes(s, h) ==> Held(s') == 0
    ensures !Adds(s, h) && !Takes(s, h) ==> Held(s') == Held(s)
  {
    hide Count, TriggerMet, RangeLow, RangeHigh, MonitorSeen;
    if h.Continued? {
      LockedHolds(s, h.k);
      MonitorHolds(s, h.k, h.reply, h.now, c);
    }
  }

  lemma MonitorHolds(s: State, k: nat, reply: Reply, now: real, c: Config)
    requires k < |s.tasks|
    ensures MonitorSeen(s, k, reply, now, c).isOpen == s.isOpen
  {
    hide LowerBuffered, UpperBuffered;
  }

  /** Tokens go in only after everything that went in before was taken out: confirmed adds never
      outnumber confirmed removals by more than the one position that is open. */
  lemma {:induction false} OnePositionAtATime(ss: seq<State>, hs: seq<Happening>, c: Config, i: nat)
    requires Run(ss, hs, c) && |ss| == |hs| + 1 && i < |ss|
    ensures AddCount(ss, hs, i) <= TakeCount(ss, hs, i) + Held(ss[i])
    ensures i < |hs| && Adds(ss[i], hs[i]) ==> AddCount(ss, hs, i) <= TakeCount(ss, hs, i)
  {
    hide Step, Adds, Takes, Held;
    if i > 0 {
      OnePositionAtATime(ss, hs, c, i - 1);
      RunKeepsLocks(ss, hs, c, i - 1);
      assert Step(ss[i - 1], hs[i - 1], ss[i], c);
      HoldingStep(ss[i - 1], hs[i - 1], ss[i], c);
      HeldRange(ss[i - 1]);
    }
    if i < |hs| {
      RunKeepsLocks(ss, hs, c, i);
      assert Step(ss[i], hs[i], ss[i + 1], c);
      HoldingStep(ss[i], hs[i], ss[i + 1], c);
    }
  }

  lemma HeldRange(s: State)
    ensures 0 <= Held(s) <= 1
  {
  }
}
