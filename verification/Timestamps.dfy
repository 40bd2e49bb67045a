/**
 The job identifier allocator: threads that share the last issued instant under a mutex and wait
 until the clock has moved on by a tenth of a second. The clock is arbitrary; it may go backwards.
 */
module Timestamps {
  import opened Text
  import opened Calendar

  const MAX_DURATION: int := 0x7fff_ffff_ffff_ffff

  /** The difference of two instants as a Go duration, which saturates at 64 bits. */
  function Sub(t: nat, u: nat): int {
    if t - u > MAX_DURATION then MAX_DURATION
    else if t - u < -MAX_DURATION - 1 then -MAX_DURATION - 1
    else t - u
  }

  predicate TooSoon(now: nat, last: nat) {
    Sub(now, last) < NANOS_PER_TENTH
  }

  // ---------------------------------------------------------------- one caller

  /** The package variable behind the allocator, with the loop as one caller runs it. */
  class Allocator {
    var lastTime: nat

    constructor (start: nat)
      ensures lastTime == start
    {
      lastTime := start;
    }

    /**
     Reads the clock until the reading is late enough; `clock` lists the readings to come. None
     means that the caller is still waiting when they are used up.
     */
    method GetTimestamp(clock: seq<nat>) returns (stamp: Option<string>, used: nat)
      modifies this
      ensures used <= |clock|
      ensures forall i | 0 <= i < used - 1 :: clock[i] < old(lastTime) + NANOS_PER_TENTH
      ensures stamp.Some? ==>
                && 0 < used && lastTime == clock[used - 1] && old(lastTime) + NANOS_PER_TENTH <= lastTime
                && stamp.value == Format(lastTime) && (Year(lastTime) <= 9999 ==> StampOf(stamp.value, lastTime))
      ensures stamp.None? ==>
                && lastTime == old(lastTime) && used == |clock|
                && forall i | 0 <= i < used :: clock[i] < lastTime + NANOS_PER_TENTH
    {
      used := 0;
      if |clock| == 0 {
        return None, 0;
      }
      var now := clock[0];
      used := 1;
      while TooSoon(now, lastTime)
        invariant lastTime == old(lastTime)
        invariant 0 < used <= |clock| && now == clock[used - 1]
        invariant forall i | 0 <= i < used - 1 :: TooSoon(clock[i], lastTime)
        decreases |clock| - used
      {
        if used == |clock| {
          return None, used;
        }
        now := clock[used];
        used := used + 1;
      }
      lastTime := now;
      stamp := Some(Format(now));
      if Year(now) <= 9999 { FormatStamps(now); }
    }
  }

  // ---------------------------------------------------------------- many threads

  type Thread = nat

  /** Where a thread is inside GetTimestamp. */
  datatype Pc =
    | Outside
    | Waiting            // for the mutex
    | Reading            // holds the mutex, about to read the clock
    | Checking(now: nat) // has read the clock
    | Returning(now: nat) // has stored the reading, still holds the mutex

  /** `issued` lists the returned instants, with the thread each was returned to. */
  datatype System = System(last: nat, owner: Option<Thread>, pcs: map<Thread, Pc>, issued: seq<(Thread, nat)>)

  function PcOf(s: System, t: Thread): Pc {
    if t in s.pcs then s.pcs[t] else Outside
  }

  datatype Action =
    | Enter
    | Lock
    | Read(clock: nat)
    | Retry
    | Accept
    | Return

  /** One step of one thread; None when the action is not enabled. */
  function Step(s: System, t: Thread, a: Action): Option<System> {
    match (a, PcOf(s, t))
    case (Enter, Outside) => Some(s.(pcs := s.pcs[t := Waiting]))
    case (Lock, Waiting) => if s.owner.None? then Some(s.(owner := Some(t), pcs := s.pcs[t := Reading])) else None
    case (Read(clock), Reading) => Some(s.(pcs := s.pcs[t := Checking(clock)]))
    case (Retry, Checking(now)) => if TooSoon(now, s.last) then Some(s.(pcs := s.pcs[t := Reading])) else None
    case (Accept, Checking(now)) =>
      if TooSoon(now, s.last) then None else Some(s.(last := now, pcs := s.pcs[t := Returning(now)]))
    case (Return, Returning(now)) =>
      Some(s.(owner := None, pcs := s.pcs[t := Outside], issued := s.issued + [(t, now)]))
    case _ => None
  }

  function Init(start: nat): System {
    System(start, None, map[], [])
  }

  /** The system after a schedule; actions that are not enabled are skipped. */
  function Run(s: System, schedule: seq<(Thread, Action)>): System
    decreases |schedule|
  {
    if schedule == [] then s
    else
      var next := Step(s, schedule[0].0, schedule[0].1);
      Run(if next.Some? then next.value else s, schedule[1..])
  }

  predicate HoldsMutex(pc: Pc) {
    pc.Reading? || pc.Checking? || pc.Returning?
  }

  /** Issued instants are at least a tenth of a second apart, in order. */
  ghost predicate Spaced(issued: seq<(Thread, nat)>) {
    forall i, j | 0 <= i < j < |issued| :: issued[i].1 + NANOS_PER_TENTH <= issued[j].1
  }

  ghost predicate Invariant(s: System) {
    && (forall t | t in s.pcs :: HoldsMutex(s.pcs[t]) <==> s.owner == Some(t))
    && (s.owner.Some? ==> s.owner.value in s.pcs)
    && Spaced(s.issued)
    && (if s.owner.Some? && s.pcs[s.owner.value].Returning? then
          && s.last == s.pcs[s.owner.value].now
          && forall i | 0 <= i < |s.issued| :: s.issued[i].1 + NANOS_PER_TENTH <= s.last
        else forall i | 0 <= i < |s.issued| :: s.issued[i].1 <= s.last)
  }

  lemma StepKeepsInvariant(s: System, t: Thread, a: Action)
    requires Invariant(s) && Step(s, t, a).Some?
    ensures Invariant(Step(s, t, a).value)
    ensures s.issued <= Step(s, t, a).value.issued
  {
  }

  lemma {:induction false} RunKeepsInvariant(s: System, schedule: seq<(Thread, Action)>)
    requires Invariant(s)
    ensures Invariant(Run(s, schedule))
    ensures s.issued <= Run(s, schedule).issued
    decreases |schedule|
  {
    if schedule != [] {
      var next := Step(s, schedule[0].0, schedule[0].1);
      if next.Some? { StepKeepsInvariant(s, schedule[0].0, schedule[0].1); }
      RunKeepsInvariant(if next.Some? then next.value else s, schedule[1..]);
    }
  }

  /** At most one thread is between locking and unlocking, in every reachable state. */
  lemma MutualExclusion(start: nat, schedule: seq<(Thread, Action)>, t: Thread, u: Thread)
    requires var s := Run(Init(start), schedule); HoldsMutex(PcOf(s, t)) && HoldsMutex(PcOf(s, u))
    ensures t == u
  {
    RunKeepsInvariant(Init(start), schedule);
  }

  // ---------------------------------------------------------------- a caller gets through

  /** The steps of a thread that holds the mutex: it reads the clock until the last reading is accepted. */
  function Readings(t: Thread, clock: seq<nat>): seq<(Thread, Action)>
    requires clock != []
    decreases |clock|
  {
    [(t, Read(clock[0]))]
    + if |clock| == 1 then [(t, Accept), (t, Return)] else [(t, Retry)] + Readings(t, clock[1..])
  }

  /** The system once thread t has been given the instant now. */
  function Served(s: System, t: Thread, now: nat): System {
    System(now, None, s.pcs[t := Outside], s.issued + [(t, now)])
  }

  /** The last reading is the first that is a tenth of a second later than the last issued instant. */
  ghost predicate FirstLate(clock: seq<nat>, last: nat) {
    && clock != [] && last + 100000000 <= clock[|clock| - 1]
    && forall i | 0 <= i < |clock| - 1 :: clock[i] < last + 100000000
  }

  lemma {:induction false} ReadingsRun(s: System, t: Thread, clock: seq<nat>)
    requires PcOf(s, t) == Reading && s.owner == Some(t) && FirstLate(clock, s.last)
    ensures Run(s, Readings(t, clock)) == Served(s, t, clock[|clock| - 1])
    decreases |clock|
  {
    var steps, now := Readings(t, clock), clock[0];
    var s1 := s.(pcs := s.pcs[t := Checking(now)]);
    RunFirst(s, t, Read(now), steps[1..]);
    assert steps == [(t, Read(now))] + steps[1..];
    if |clock| == 1 {
      var s2 := s1.(last := now, pcs := s1.pcs[t := Returning(now)]);
      assert steps[1..] == [(t, Accept)] + ([(t, Return)] + []);
      RunFirst(s1, t, Accept, [(t, Return)] + []);
      RunFirst(s2, t, Return, []);
      assert s2.pcs[t := Outside] == s.pcs[t := Outside];
    } else {
      var s2 := s1.(pcs := s1.pcs[t := Reading]);
      assert steps[1..] == [(t, Retry)] + Readings(t, clock[1..]);
      RunFirst(s1, t, Retry, Readings(t, clock[1..]));
      ReadingsRun(s2, t, clock[1..]);
      assert s2.pcs[t := Outside] == s.pcs[t := Outside];
    }
  }

  lemma RunFirst(s: System, t: Thread, a: Action, rest: seq<(Thread, Action)>)
    requires Step(s, t, a).Some?
    ensures Run(s, [(t, a)] + rest) == Run(Step(s, t, a).value, rest)
  {
    assert ([(t, a)] + rest)[1..] == rest;
  }

  /**
   From any state in which the mutex is free, a thread that comes in and is not interrupted is given the
   first reading of the clock that is late enough, and leaves the mutex free again.
   */
  lemma CallerServed(s: System, t: Thread, clock: seq<nat>)
    requires s.owner.None? && PcOf(s, t) == Outside && FirstLate(clock, s.last)
    ensures Run(s, [(t, Enter)] + ([(t, Lock)] + Readings(t, clock))) == Served(s, t, clock[|clock| - 1])
  {
    EntersAndLocks(s, t, Readings(t, clock));
    ReadingsRun(Locked(s, t), t, clock);
    SameServed(s, t, clock[|clock| - 1]);
  }

  /** The system once thread t has come in and holds the mutex. */
  function Locked(s: System, t: Thread): System {
    s.(owner := Some(t), pcs := s.pcs[t := Waiting][t := Reading])
  }

  lemma EntersAndLocks(s: System, t: Thread, rest: seq<(Thread, Action)>)
    requires s.owner.None? && PcOf(s, t) == Outside
    ensures Run(s, [(t, Enter)] + ([(t, Lock)] + rest)) == Run(Locked(s, t), rest)
  {
    var s1 := s.(pcs := s.pcs[t := Waiting]);
    RunFirst(s, t, Enter, [(t, Lock)] + rest);
    RunFirst(s1, t, Lock, rest);
  }

  lemma SameServed(s: System, t: Thread, now: nat)
    ensures Served(Locked(s, t), t, now) == Served(s, t, now)
  {
    assert s.pcs[t := Waiting][t := Reading][t := Outside] == s.pcs[t := Outside];
  }

  lemma SpacedTenths(a: nat, b: nat)
    requires a + NANOS_PER_TENTH <= b
    ensures Tenth(a) < Tenth(b)
  {
  }

  /**
   Job identifiers are unique and increasing, for every number of threads, every interleaving and
   every clock: of two identifiers, the one issued later is the larger string.
   */
  lemma IdentifiersIncrease(start: nat, schedule: seq<(Thread, Action)>, i: nat, j: nat)
    requires var issued := Run(Init(start), schedule).issued;
             i < j < |issued| && Year(issued[i].1) <= 9999 && Year(issued[j].1) <= 9999
    ensures var issued := Run(Init(start), schedule).issued;
            Tenth(issued[i].1) < Tenth(issued[j].1) && LexLess(Format(issued[i].1), Format(issued[j].1))
  {
    RunKeepsInvariant(Init(start), schedule);
    var issued := Run(Init(start), schedule).issued;
    SpacedTenths(issued[i].1, issued[j].1);
    FormatOrdered(issued[i].1, issued[j].1);
  }
}
