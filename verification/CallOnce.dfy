/**
 * call_once for any number of concurrent calls on one flag, as a transition system whose steps are the single atomic
 * operations of CallOnceImpl, SpinLockWait and the futex that SpinLockDelay and SpinLockWake use.
 */
module CallOnce {
  import opened Prelude

  datatype Word = Init | Running | Waiter | Done

  /** Where one call stands; each value names the operation it performs next. */
  datatype Pc =
    | FastLoad                 // load the control word
    | FastSwap                 // compare-exchange Init -> Running
    | WaitLoad                 // SpinLockWait: load the control word
    | Follow(seen: Word)       // SpinLockWait: follow the transition for the value seen
    | Delay(seen: Word)        // futex wait, if the word still holds the value seen
    | Asleep                   // blocked in the futex
    | Invoke                   // start fn
    | InFn                     // fn is running
    | Publish                  // exchange the word with Done
    | WakeAll                  // wake every futex sleeper
    | Returned

  /** The control word, the calls, and a record of who won the right to run fn and how often fn began and ended. */
  datatype State = State(word: Word, pc: seq<Pc>, runner: Option<nat>, begun: nat, ended: nat)

  /** The runner between winning the flag and publishing Done. */
  predicate Owns(pc: Pc) {
    pc.Invoke? || pc.InFn? || pc.Publish?
  }

  /** The SpinLockWait transition table: where a value seen leads, and whether following it ends the wait. */
  function Transition(seen: Word): (t: Option<(Word, bool)>) {
    match seen
    case Init => Some((Running, true))
    case Running => Some((Waiter, false))
    case Done => Some((Done, true))
    case Waiter => None
  }

  function Start(n: nat): (s: State) {
    State(Init, seq(n, _ => FastLoad), None, 0, 0)
  }

  // ----- Steps -----

  predicate Enabled(s: State, t: nat) {
    t < |s.pc| && !s.pc[t].Asleep? && !s.pc[t].Returned?
  }

  function Goto(s: State, t: nat, pc: Pc): (s': State)
    requires t < |s.pc|
  {
    s.(pc := s.pc[t := pc])
  }

  /** The call won the compare-exchange from Init to Running. */
  function Win(s: State, t: nat): (s': State)
    requires t < |s.pc|
  {
    s.(word := Running, pc := s.pc[t := Invoke], runner := Some(t))
  }

  function FollowStep(s: State, t: nat, seen: Word): (s': State)
    requires t < |s.pc|
  {
    match Transition(seen)
    case None => Goto(s, t, WaitLoad)
    case Some((to, done)) =>
      if to == seen then (if done then Goto(s, t, Returned) else Goto(s, t, WaitLoad))
      else if s.word != seen then Goto(s, t, WaitLoad)
      else if !done then Goto(s.(word := to), t, WaitLoad)
      else if seen == Init then Win(s, t)
      else Goto(s.(word := to), t, Returned)
  }

  /** One atomic operation of call t. */
  function Do(s: State, t: nat): (s': State)
    requires Enabled(s, t)
  {
    match s.pc[t]
    case FastLoad => Goto(s, t, if s.word == Done then Returned else FastSwap)
    case FastSwap => if s.word == Init then Win(s, t) else Goto(s, t, WaitLoad)
    case WaitLoad => Goto(s, t, if Transition(s.word).Some? then Follow(s.word) else Delay(s.word))
    case Follow(seen) => FollowStep(s, t, seen)
    case Delay(seen) => Goto(s, t, if s.word == seen then Asleep else WaitLoad)
    case Invoke => Goto(s.(begun := s.begun + 1), t, InFn)
    case InFn => Goto(s.(ended := s.ended + 1), t, Publish)
    case Publish => Goto(s.(word := Done), t, if s.word == Waiter then WakeAll else Returned)
    case WakeAll => s.(pc := Awake(s.pc)[t := Returned])
  }

  function Awake(pc: seq<Pc>): (pc': seq<Pc>)
    ensures |pc'| == |pc|
  {
    seq(|pc|, i requires 0 <= i < |pc| => if pc[i].Asleep? then WaitLoad else pc[i])
  }

  /** What can happen: a call performs its next operation, or the futex lets a sleeper go without being asked to. */
  datatype Action = Go(call: nat) | Stir(call: nat)

  predicate Allowed(s: State, a: Action) {
    match a
    case Go(t) => Enabled(s, t)
    case Stir(t) => t < |s.pc| && s.pc[t].Asleep?
  }

  function Act(s: State, a: Action): (s': State)
    requires Allowed(s, a)
  {
    match a
    case Go(t) => Do(s, t)
    case Stir(t) => Goto(s, t, WaitLoad)
  }

  /** s is the outcome of the schedule from n fresh calls. */
  ghost predicate Reaches(n: nat, schedule: seq<Action>, s: State) {
    if schedule == [] then s == Start(n) else
    var last := schedule[|schedule| - 1];
    exists before :: Reaches(n, schedule[..|schedule| - 1], before) && Allowed(before, last) && s == Act(before, last)
  }

  // ----- Safety -----

  function Order(w: Word): (k: nat) {
    match w case Init => 0 case Running => 1 case Waiter => 2 case Done => 3
  }

  /** What call t may be doing, given the word and the winner. */
  ghost predicate CallOk(s: State, t: nat)
    requires t < |s.pc|
  {
    match s.pc[t]
    case Follow(seen) => Order(seen) <= Order(s.word) && seen != Waiter
    case Delay(seen) => seen == Waiter && Order(Waiter) <= Order(s.word)
    case Asleep =>
      || s.word == Waiter
      || (s.word == Done && s.runner.Some? && s.runner.value < |s.pc| && s.pc[s.runner.value].WakeAll?)
    case Invoke => s.runner == Some(t) && (s.word == Running || s.word == Waiter)
    case InFn => s.runner == Some(t) && (s.word == Running || s.word == Waiter)
    case Publish => s.runner == Some(t) && (s.word == Running || s.word == Waiter)
    case WakeAll => s.runner == Some(t) && s.word == Done
    case Returned => s.word == Done
    case _ => true
  }

  /** The record agrees with the word and the winner's progress. */
  ghost predicate RecordOk(s: State) {
    match s.word
    case Init => s.runner.None? && s.begun == s.ended == 0
    case Done => s.runner.Some? && s.begun == s.ended == 1
    case _ =>
      && s.runner.Some? && s.runner.value < |s.pc| && Owns(s.pc[s.runner.value])
      && s.begun == (if s.pc[s.runner.value].Invoke? then 0 else 1)
      && s.ended == (if s.pc[s.runner.value].Publish? then 1 else 0)
  }

  ghost predicate Inv(s: State) {
    RecordOk(s) && forall t :: 0 <= t < |s.pc| ==> CallOk(s, t)
  }

  lemma ActKeepsRecord(s: State, a: Action)
    requires RecordOk(s) && Allowed(s, a) && CallOk(s, a.call)
    ensures RecordOk(Act(s, a)) && |Act(s, a).pc| == |s.pc|
  {
  }

  lemma ActKeepsMover(s: State, a: Action)
    requires RecordOk(s) && Allowed(s, a) && CallOk(s, a.call)
    ensures |Act(s, a).pc| == |s.pc| && CallOk(Act(s, a), a.call)
  {
  }

  lemma ActKeepsOther(s: State, a: Action, u: nat)
    requires RecordOk(s) && Allowed(s, a) && CallOk(s, a.call) && u < |s.pc| && u != a.call && CallOk(s, u)
    ensures |Act(s, a).pc| == |s.pc| && CallOk(Act(s, a), u)
  {
  }

  lemma ActKeepsInv(s: State, a: Action)
    requires Inv(s) && Allowed(s, a)
    ensures Inv(Act(s, a)) && |Act(s, a).pc| == |s.pc|
  {
    ActKeepsRecord(s, a);
    ActKeepsMover(s, a);
    forall u | 0 <= u < |s.pc| && u != a.call ensures CallOk(Act(s, a), u) {
      ActKeepsOther(s, a, u);
    }
  }

  lemma {:induction false} ReachableInv(n: nat, schedule: seq<Action>, s: State)
    requires Reaches(n, schedule, s)
    ensures Inv(s) && |s.pc| == n
    decreases |schedule|
  {
    if schedule != [] {
      var init, last := schedule[..|schedule| - 1], schedule[|schedule| - 1];
      var before :| Reaches(n, init, before) && Allowed(before, last) && s == Act(before, last);
      ReachableInv(n, init, before);
      ActKeepsInv(before, last);
    }
  }

  /** In every run fn begins at most once, and no call returns before it has ended. */
  lemma AtMostOnce(n: nat, schedule: seq<Action>, s: State, t: nat, u: nat)
    requires Reaches(n, schedule, s) && t < |s.pc| && u < |s.pc|
    ensures s.ended <= s.begun <= 1
    ensures s.pc[t].Returned? ==> s.ended == 1
    ensures Owns(s.pc[t]) && Owns(s.pc[u]) ==> t == u
  {
    ReachableInv(n, schedule, s);
    assert CallOk(s, t) && CallOk(s, u);
  }

  /** A sleeper is never forgotten: the winner has still to publish over Waiter, or has its wake-all before it. */
  lemma NoLostWakeUp(n: nat, schedule: seq<Action>, s: State, t: nat)
    requires Reaches(n, schedule, s) && t < n && |s.pc| == n && s.pc[t].Asleep?
    ensures s.runner.Some? && s.runner.value < n
    ensures || (s.word == Waiter && Owns(s.pc[s.runner.value]))
            || (s.word == Done && s.pc[s.runner.value].WakeAll?)
  {
    ReachableInv(n, schedule, s);
    assert CallOk(s, t);
  }

  /** The word only moves forward, one legal step at a time, and Init is left exactly by the winner's swap. */
  lemma WordMovesForward(n: nat, schedule: seq<Action>, s: State, a: Action)
    requires Reaches(n, schedule, s) && Allowed(s, a)
    ensures var s' := Act(s, a);
      || s'.word == s.word
      || (s.word == Init && s'.word == Running && s'.runner == Some(a.call))
      || (s.word == Running && s'.word == Waiter)
      || ((s.word == Running || s.word == Waiter) && s'.word == Done && s.runner == Some(a.call))
    ensures Act(s, a).runner != s.runner ==> s.word == Init
  {
    ReachableInv(n, schedule, s);
    assert CallOk(s, a.call);
  }

  // ----- Every run ends -----

  /** How far the flag is from rest: the word's steps still to come, and the wake-all after them. */
  function Phase(s: State): (k: nat) {
    match s.word
    case Init => 4
    case Running => 3
    case Waiter => 2
    case Done => if s.runner.Some? && s.runner.value < |s.pc| && s.pc[s.runner.value].WakeAll? then 1 else 0
  }

  /** How many operations a call has before it next depends on the flag moving. */
  function Rank(pc: Pc, word: Word): (k: nat)
    ensures k <= 7
  {
    match pc
    case FastLoad => 7
    case FastSwap => 6
    case WaitLoad => 4
    case Follow(seen) => if seen == word then 3 else 5
    case Delay(seen) => if seen == word then 2 else 5
    case Asleep => 1
    case Invoke => 3
    case InFn => 2
    case Publish => 1
    case WakeAll => 1
    case Returned => 0
  }

  function RankSum(pc: seq<Pc>, word: Word): (k: nat)
    ensures k <= 7 * |pc|
  {
    if pc == [] then 0 else RankSum(pc[..|pc| - 1], word) + Rank(pc[|pc| - 1], word)
  }

  function Measure(s: State): (k: nat) {
    Phase(s) * (7 * |s.pc| + 1) + RankSum(s.pc, s.word)
  }

  lemma {:induction false} RankSumUpdate(pc: seq<Pc>, word: Word, t: nat, p: Pc)
    requires t < |pc|
    ensures RankSum(pc[t := p], word) == RankSum(pc, word) - Rank(pc[t], word) + Rank(p, word)
  {
    var init := pc[..|pc| - 1];
    if t == |pc| - 1 {
      assert pc[t := p][..|pc| - 1] == init;
    } else {
      assert pc[t := p][..|pc| - 1] == init[t := p];
      RankSumUpdate(init, word, t, p);
    }
  }

  /** An operation either moves the flag on or brings its call nearer to waiting on the flag. */
  lemma DoProgresses(s: State, t: nat)
    requires Inv(s) && Enabled(s, t)
    ensures var s' := Do(s, t);
      || Phase(s') < Phase(s)
      || (Phase(s') == Phase(s) && s'.word == s.word && s'.pc == s.pc[t := s'.pc[t]] &&
          Rank(s'.pc[t], s.word) < Rank(s.pc[t], s.word))
  {
    assert CallOk(s, t);
    if s.runner.Some? && s.runner.value < |s.pc| { assert CallOk(s, s.runner.value); }
  }

  lemma MeasureFalls(s: State, t: nat)
    requires Inv(s) && Enabled(s, t)
    ensures Measure(Do(s, t)) < Measure(s)
  {
    var s' := Do(s, t);
    ActKeepsInv(s, Go(t));
    DoProgresses(s, t);
    var k := 7 * |s.pc| + 1;
    if Phase(s') < Phase(s) {
      assert Phase(s') * k + k <= Phase(s) * k;
    } else {
      RankSumUpdate(s.pc, s.word, t, s'.pc[t]);
    }
  }

  lemma StirCosts(s: State, t: nat)
    requires Inv(s) && Allowed(s, Stir(t))
    ensures Measure(Act(s, Stir(t))) == Measure(s) + 3
  {
    assert CallOk(s, t);
    if s.runner.Some? && s.runner.value < |s.pc| { assert CallOk(s, s.runner.value); }
    RankSumUpdate(s.pc, s.word, t, WaitLoad);
    assert Phase(Act(s, Stir(t))) == Phase(s);
  }

  function Stirs(schedule: seq<Action>): (k: nat)
    ensures k <= |schedule|
  {
    if schedule == [] then 0 else
    Stirs(schedule[..|schedule| - 1]) + if schedule[|schedule| - 1].Stir? then 1 else 0
  }

  lemma {:induction false} StartSum(n: nat)
    ensures RankSum(Start(n).pc, Init) == 7 * n
  {
    if n > 0 {
      assert Start(n).pc[..n - 1] == Start(n - 1).pc;
      StartSum(n - 1);
    }
  }

  /** Every run is finite: n calls perform at most 35n + 4 operations, and three more per unasked wake-up. */
  lemma {:induction false} RunsAreBounded(n: nat, schedule: seq<Action>, s: State)
    requires Reaches(n, schedule, s)
    ensures |schedule| - Stirs(schedule) + Measure(s) <= 35 * n + 4 + 3 * Stirs(schedule)
    decreases |schedule|
  {
    if schedule == [] {
      StartSum(n);
    } else {
      var init, last := schedule[..|schedule| - 1], schedule[|schedule| - 1];
      var before :| Reaches(n, init, before) && Allowed(before, last) && s == Act(before, last);
      RunsAreBounded(n, init, before);
      ReachableInv(n, init, before);
      match last
      case Go(t) => MeasureFalls(before, t);
      case Stir(t) => StirCosts(before, t);
    }
  }

  /** While a call has not returned, some call can move. */
  lemma NeverStuck(n: nat, schedule: seq<Action>, s: State, t: nat)
    requires Reaches(n, schedule, s) && t < |s.pc| && !s.pc[t].Returned?
    ensures exists u :: Enabled(s, u)
  {
    ReachableInv(n, schedule, s);
    assert CallOk(s, t);
    if s.pc[t].Asleep? {
      assert Enabled(s, s.runner.value);
    } else {
      assert Enabled(s, t);
    }
  }

  /** Exactly once: a run of at least one call that cannot go on has returned from every call and run fn once. */
  lemma ExactlyOnce(n: nat, schedule: seq<Action>, s: State)
    requires n > 0 && Reaches(n, schedule, s) && forall u :: !Enabled(s, u)
    ensures |s.pc| == n && forall t :: 0 <= t < n ==> s.pc[t].Returned?
    ensures s.begun == s.ended == 1 && s.word == Done
  {
    ReachableInv(n, schedule, s);
    forall t | 0 <= t < n ensures s.pc[t].Returned? {
      if !s.pc[t].Returned? { NeverStuck(n, schedule, s, t); }
    }
    assert CallOk(s, 0);
  }

  // ----- What callers see -----

  /** A call that comes after fn has been published returns on its first operation. */
  lemma LateCallReturns(n: nat, schedule: seq<Action>, s: State, t: nat)
    requires Reaches(n, schedule, s) && t < |s.pc| && s.pc[t].FastLoad? && s.ended == 1 && s.word == Done
    ensures Allowed(s, Go(t)) && Act(s, Go(t)).pc[t].Returned?
    ensures forall u :: 0 <= u < |s.pc| && u != t ==> Act(s, Go(t)).pc[u] == s.pc[u]
  {
  }

  /** A lone call after m of its operations. */
  predicate Alone(m: nat, s: State) {
    match m
    case 0 => s == State(Init, [FastLoad], None, 0, 0)
    case 1 => s == State(Init, [FastSwap], None, 0, 0)
    case 2 => s == State(Running, [Invoke], Some(0), 0, 0)
    case 3 => s == State(Running, [InFn], Some(0), 1, 0)
    case 4 => s == State(Running, [Publish], Some(0), 1, 1)
    case 5 => s == State(Done, [Returned], Some(0), 1, 1)
    case _ => false
  }

  lemma AloneNext(m: nat, s: State, a: Action)
    requires Alone(m, s) && Allowed(s, a)
    ensures m < 5 && Alone(m + 1, Act(s, a))
  {
  }

  /** A lone call loads, swaps, runs fn and publishes: it returns after exactly five operations, with no wake-up. */
  lemma {:induction false} LoneCall(schedule: seq<Action>, s: State)
    requires Reaches(1, schedule, s)
    ensures |schedule| <= 5 && Alone(|schedule|, s)
    decreases |schedule|
  {
    if schedule != [] {
      var init, last := schedule[..|schedule| - 1], schedule[|schedule| - 1];
      var before :| Reaches(1, init, before) && Allowed(before, last) && s == Act(before, last);
      LoneCall(init, before);
      AloneNext(|init|, before, last);
    }
  }

  predicate Waiting(pc: Pc) {
    pc.WaitLoad? || pc.Follow? || pc.Delay? || pc.Asleep?
  }

  ghost predicate SomeoneWaits(s: State) {
    exists t :: 0 <= t < |s.pc| && Waiting(s.pc[t])
  }

  lemma WaiterStays(s: State, a: Action)
    requires Inv(s) && Allowed(s, a) && (s.word == Waiter ==> SomeoneWaits(s))
    ensures Act(s, a).word == Waiter ==> SomeoneWaits(Act(s, a))
  {
    ActKeepsInv(s, a);
    var s' := Act(s, a);
    assert CallOk(s, a.call);
    if s'.word == Waiter {
      if s.word == Waiter {
        var t :| 0 <= t < |s.pc| && Waiting(s.pc[t]);
        assert Waiting(s'.pc[t]);
      } else {
        assert Waiting(s'.pc[a.call]);
      }
    }
  }

  /** The word says Waiter only while some call waits, so the winner's wake-all is never for nobody. */
  lemma {:induction false} WaiterMeansWaiting(n: nat, schedule: seq<Action>, s: State)
    requires Reaches(n, schedule, s)
    ensures s.word == Waiter ==> SomeoneWaits(s)
    decreases |schedule|
  {
    if schedule != [] {
      var init, last := schedule[..|schedule| - 1], schedule[|schedule| - 1];
      var before :| Reaches(n, init, before) && Allowed(before, last) && s == Act(before, last);
      WaiterMeansWaiting(n, init, before);
      ReachableInv(n, init, before);
      WaiterStays(before, last);
    }
  }
}
