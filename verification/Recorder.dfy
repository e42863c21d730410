/** The video recorder of examples/pdc2.c: it records programs according to the labels
    which a network transmits (EN 300 231), or by the clock when these are missing.
    The assertions of the program are assertions here. */
module Recorder {
  import opened Common
  import opened Seqs

  datatype VcrState = Stby | Scan | Ptr | Rec

  /** A received program ID. */
  datatype Pid = Pid(channel: nat, pil: nat, luf: bool, mi: bool, prf: bool)

  datatype LcState = LcState(pil: nat, lastAt: real)

  const VPS := 4
  const CHANNELS := 8

  const PIL_TIMER_CONTROL := 0x7FFF
  const PIL_INHIBIT_TERMINATE := 0x7FBF
  const PIL_INTERRUPTION := 0x7F7F
  const PIL_CONTINUE := 0x7F3F

  const NO_PID := Pid(0, 0, false, false, false)

  predicate ByClock(pid: Pid) {
    pid.pil == PIL_TIMER_CONTROL || pid.pil == PIL_CONTINUE
  }

  predicate Interrupting(pid: Pid) {
    pid.pil == PIL_INTERRUPTION || pid.pil == PIL_INHIBIT_TERMINATE
  }

  /** The label of a time: five bits for the day, four for the month, five for the hour and six for the minute. */
  function Label(day: nat, month: nat, hour: nat, minute: nat): nat {
    day * 0x8000 + month * 0x800 + hour * 0x40 + minute
  }

  /** The service codes are labels of the month 15, with hours after 27, so no program has one. */
  lemma ServiceCodes(day: nat, month: nat, hour: nat, minute: nat, pid: Pid)
    requires month <= 12 && hour < 24 && minute < 60 && pid.pil == Label(day, month, hour, minute)
    ensures !ByClock(pid) && !Interrupting(pid)
    ensures ByClock(pid.(pil := Label(0, 15, 31, 63))) && ByClock(pid.(pil := Label(0, 15, 28, 63)))
    ensures Interrupting(pid.(pil := Label(0, 15, 30, 63))) && Interrupting(pid.(pil := Label(0, 15, 29, 63)))
  {}

  /** A VPS label comes with every frame, and is lost after three of them; a Teletext label comes every second, and is
      lost after two. */
  lemma LostIff(lc: seq<LcState>, t: real, i: nat)
    requires i < |lc| && i <= VPS && lc[i].pil != 0
    ensures i in LostChannels(lc, t) <==> t - lc[i].lastAt >= if i == VPS then 0.12 else 2.0
    ensures i in ActiveChannels(lc, t) <==> i !in LostChannels(lc, t)
  {}

  function SignalTimeout(channel: nat): real {
    if channel < VPS then 2.0 else if channel == VPS then 3.0 / 25.0 else 0.0
  }

  /** The conversion of a time to seconds. */
  function Seconds(t: real): int {
    if t >= 0.0 then t.Floor else -((-t).Floor)
  }

  /** The channels whose signal is lost, or not, at some time. */
  function LostChannels(lc: seq<LcState>, t: real): set<nat> {
    set i: nat | i < |lc| && lc[i].pil != 0 && t >= lc[i].lastAt + SignalTimeout(i)
  }

  function ActiveChannels(lc: seq<LcState>, t: real): set<nat> {
    set i: nat | i < |lc| && lc[i].pil != 0 && t < lc[i].lastAt + SignalTimeout(i)
  }

  class Program {
    const pil: nat
    const pilValidStart: int
    const pilValidEnd: int
    var startTime: int
    var endTime: int
    var continues: bool

    constructor (pil: nat, start: int, end: int, validStart: int, validEnd: int)
      ensures startTime == start && endTime == end && !continues
    {
      this.pil, pilValidStart, pilValidEnd := pil, validStart, validEnd;
      startTime, endTime, continues := start, end, false;
    }
  }

  /** Program p is the first with label pil. */
  predicate FirstWithPil(q: seq<Program>, pil: nat, p: Program) {
    exists i :: 0 <= i < |q| && q[i] == p && p.pil == pil && forall j :: 0 <= j < i ==> q[j].pil != pil
  }

  predicate Scheduled(q: seq<Program>, pil: nat) {
    exists i :: 0 <= i < |q| && q[i].pil == pil
  }

  /** r is q without p. */
  predicate Without(q: seq<Program>, p: Program, r: seq<Program>) {
    if p in q then exists i :: 0 <= i < |q| && q[i] == p && r == q[..i] + q[i + 1..] else r == q
  }

  predicate Within(r: seq<Program>, q: seq<Program>) {
    forall p :: p in r ==> p in q
  }

  function AtMost60(t: real): real {
    if t < 60.0 then t else 60.0
  }

  /** The end time of a program whose signal is lost while it is being prepared since some time: its
      announced duration from now, and then as the program computes it. */
  function LostEnd(announced: int, now: int, since: real, timestamp: real): int {
    Seconds((announced + now) as real + (60.0 - AtMost60(since - timestamp)))
  }

  /** The end time which is one minute after the preparation began, or now if that is later, and the
      announced duration. */
  function MinuteEnd(announced: int, now: int, since: real, timestamp: real): int {
    Seconds((announced + now) as real + (60.0 - AtMost60(timestamp - since)))
  }

  lemma SecondsAbove(n: int, t: real)
    requires n >= 0 && t >= 0.0
    ensures Seconds(n as real + t) >= n
  {}

  lemma SecondsBelow(n: int, t: real)
    requires n as real - t >= 0.0 && t > 0.0
    ensures Seconds(n as real - t) < n
  {}

  /** The end is that minute if and only if the signal was lost the moment the preparation began. Later
      it is too late, by twice the time since then while that is within the minute. */
  lemma MinuteIff(announced: int, now: int, since: real, timestamp: real)
    requires announced + now >= 0 && since <= timestamp
    ensures LostEnd(announced, now, since, timestamp) == Seconds((announced + now + 60) as real + (timestamp - since))
    ensures LostEnd(announced, now, since, timestamp) >= MinuteEnd(announced, now, since, timestamp)
    ensures LostEnd(announced, now, since, timestamp) == MinuteEnd(announced, now, since, timestamp)
       <==> since == timestamp
  {
    var n, prepared := announced + now + 60, timestamp - since;
    assert LostEnd(announced, now, since, timestamp) == Seconds(n as real + prepared);
    assert MinuteEnd(announced, now, since, timestamp) == Seconds(n as real - AtMost60(prepared));
    SecondsAbove(n, prepared);
    if prepared > 0.0 { SecondsBelow(n, AtMost60(prepared)); }
  }

  /** The signal is lost 30 seconds after the preparation began: the recording lasts one minute too long. */
  lemma MinuteTooLong(announced: nat, now: nat, since: int)
    ensures LostEnd(announced, now, since as real, (since + 30) as real) == announced + now + 90
    ensures MinuteEnd(announced, now, since as real, (since + 30) as real) == announced + now + 30
  {
    var n := announced + now;
    assert (since + 30) as real - since as real == 30.0;
    assert n as real + (60.0 + 30.0) == (n + 90) as real && n as real + (60.0 - 30.0) == (n + 30) as real;
  }

  /** What the loss of signals means: nothing, the clock takes over, the program is followed on VPS,
      or it ends. */
  datatype Loss = Nothing | Clock | Follow | End

  /** Channel pid.channel carries the current program, if there is one. */
  function LossResponse(active: set<nat>, lost: set<nat>, busy: bool, pid: Pid, lc: seq<LcState>): Loss
    requires |lc| == CHANNELS
  {
    if active == {} then if lost == {} then Nothing else Clock
    else if active == {VPS} && 0 in lost && pid.pil == lc[VPS].pil then Follow
    else if busy && pid.pil != 0 && pid.channel in lost then End
    else Nothing
  }

  /** When Teletext is lost, and only VPS is left, a program whose label VPS carries, too, is to be
      followed there. It is if and only if Teletext channel 0 is among the lost ones; without it the
      loss ends the program. */
  lemma FollowsIff(lc: seq<LcState>, t: real, pid: Pid)
    requires |lc| == CHANNELS && ActiveChannels(lc, t) == {VPS}
    requires pid.channel in LostChannels(lc, t) && pid.pil != 0 && pid.pil == lc[VPS].pil
    ensures var loss := LossResponse(ActiveChannels(lc, t), LostChannels(lc, t), true, pid, lc);
      && (loss == Follow <==> lc[0].pil != 0 && t >= lc[0].lastAt + 2.0)
      && (loss != Follow ==> loss == End)
  {
    assert VPS in ActiveChannels(lc, t);
  }

  /** The label of the program is on Teletext channel 1 and on VPS. Channel 1 is lost, and the program
      ends, although VPS still carries its label. */
  lemma TeletextOneLost(pil: nat)
    requires pil != 0
    ensures var none, pid := LcState(0, 0.0), Pid(1, pil, false, false, false);
      var lc := [none, LcState(pil, 0.0), none, none, LcState(pil, 2.0), none, none, none];
      && LostChannels(lc, 2.0) == {1} && ActiveChannels(lc, 2.0) == {VPS}
      && LossResponse(ActiveChannels(lc, 2.0), LostChannels(lc, 2.0), true, pid, lc) == End
  {
    var none := LcState(0, 0.0);
    var lc := [none, LcState(pil, 0.0), none, none, LcState(pil, 2.0), none, none, none];
    assert forall i: nat :: i < 8 && lc[i].pil != 0 ==> i == 1 || i == 4;
    assert 1 in LostChannels(lc, 2.0) && VPS in ActiveChannels(lc, 2.0);
  }

  class Vcr {
    // All programs there ever were on the schedule.
    ghost const programs: set<Program>
    var audienceTime: int
    var timestamp: real
    var lc: seq<LcState>
    var vcrState: VcrState
    var vcrStateSince: real
    var timerControlMode: bool
    var delayedStopAt: Option<real>
    var delayedStopPid: Pid
    var schedule: seq<Program>
    var currProgram: Program?
    var currPid: Pid

    /** In PTR and REC state there is a program, and it is on the schedule. PTR is never under
        timer control, and only a recording can have a planned stop. */
    ghost predicate Valid()
      reads this
    {
      && |lc| == CHANNELS && currPid.channel < CHANNELS
      && Distinct(schedule) && (forall p :: p in schedule ==> p in programs)
      && (currProgram != null ==> currProgram in schedule)
      && (vcrState == Ptr || vcrState == Rec ==> currProgram != null)
      && (vcrState == Ptr ==> !timerControlMode)
      && (delayedStopAt.Some? ==> vcrState == Rec)
    }

    /** Nothing but the received labels has changed. */
    twostate predicate SameRecording()
      reads `vcrState, `vcrStateSince, `timerControlMode, `delayedStopAt, `delayedStopPid, `schedule
      reads `currProgram, `currPid, `timestamp, `audienceTime
    {
      && vcrState == old(vcrState) && vcrStateSince == old(vcrStateSince) && timerControlMode == old(timerControlMode)
      && delayedStopAt == old(delayedStopAt) && schedule == old(schedule) && currProgram == old(currProgram)
      && currPid == old(currPid)
    }

    constructor (schedule: seq<Program>)
      requires Distinct(schedule)
      ensures Valid() && vcrState == Stby && this.schedule == schedule
    {
      programs := set p | p in schedule;
      audienceTime, timestamp, lc := 0, 0.0, seq(CHANNELS, _ => LcState(0, 0.0));
      vcrState, vcrStateSince, timerControlMode := Stby, 0.0, false;
      delayedStopAt, delayedStopPid, currPid := None, NO_PID, NO_PID;
      this.schedule, currProgram := schedule, null;
    }

    // ---- The schedule -----------------------------------------------------------------

    method RemoveProgram(p: Program)
      requires Valid() && (p == currProgram ==> vcrState == Stby || vcrState == Scan)
      modifies this`schedule, this`currProgram
      ensures Valid() && Without(old(schedule), p, schedule) && Within(schedule, old(schedule)) && p !in schedule
      ensures currProgram == if p == old(currProgram) then null else old(currProgram)
    {
      if p == currProgram {
        assert vcrState == Stby || vcrState == Scan;
        currProgram := null;
      }
      var i := 0;
      while i < |schedule|
        invariant i <= |schedule| && p !in schedule[..i] && schedule == old(schedule)
      {
        if schedule[i] == p {
          schedule := schedule[..i] + schedule[i + 1..];
          return;
        }
        i := i + 1;
      }
    }

    predicate Stale(p: Program)
      reads this, p
    {
      audienceTime >= p.endTime && audienceTime >= p.pilValidEnd
    }

    method RemoveStalePrograms()
      requires Valid() && (vcrState == Stby || vcrState == Scan)
      modifies this`schedule, this`currProgram
      ensures Valid()
      ensures forall p :: p in schedule ==>
        p in old(schedule) && (audienceTime < p.endTime || audienceTime < p.pilValidEnd)
      ensures forall p :: p in old(schedule) && (audienceTime < p.endTime || audienceTime < p.pilValidEnd) ==>
        p in schedule
    {
      var i := 0;
      ghost var q := schedule;
      while i < |schedule|
        invariant i <= |schedule| && Valid()
        invariant forall p :: p in schedule ==> p in q
        invariant forall p :: p in q && !Stale(p) ==> p in schedule
        invariant forall j :: 0 <= j < i ==> !Stale(schedule[j])
        decreases |schedule| - i
      {
        var p := schedule[i];
        if audienceTime >= p.endTime && audienceTime >= p.pilValidEnd {
          ghost var was := schedule;
          RemoveProgram(p);
          OneRemoved(was, i, schedule);
        } else {
          i := i + 1;
        }
      }
    }

    method FindProgramByPil(pil: nat) returns (p: Program?)
      ensures p == null ==> !Scheduled(schedule, pil)
      ensures p != null ==> FirstWithPil(schedule, pil, p)
    {
      for i := 0 to |schedule|
        invariant forall j :: 0 <= j < i ==> schedule[j].pil != pil
      {
        if schedule[i].pil == pil {
          return schedule[i];
        }
      }
      p := null;
    }

    // ---- Changes of state ----------------------------------------------------------------

    method ChangeState(new_state: VcrState)
      modifies this`vcrState, this`vcrStateSince
      ensures vcrState == new_state
      ensures vcrStateSince == if old(vcrState) == new_state then old(vcrStateSince) else timestamp
    {
      if new_state == vcrState {
        return;
      }
      vcrState := new_state;
      vcrStateSince := timestamp;
    }

    method StopRecordingNow()
      requires Valid() && vcrState == Rec
      modifies this`vcrState, this`vcrStateSince, this`delayedStopAt
      ensures Valid() && vcrState == Scan && vcrStateSince == timestamp && delayedStopAt == None
    {
      assert vcrState == Rec;
      ChangeState(Scan);
      delayedStopAt := None;
    }

    /** When the stop is due. Losing the label is noticed one second late. */
    function StopTime(pid: Option<Pid>): real
      requires |lc| == CHANNELS && currPid.channel < CHANNELS
      reads this
    {
      if pid.None? && currPid.pil != 0 then lc[currPid.channel].lastAt + 31.0 else timestamp + 30.0
    }

    method StopRecordingIn30s(pid: Option<Pid>)
      requires Valid() && vcrState == Rec
      modifies this`delayedStopAt, this`delayedStopPid
      ensures Valid() && delayedStopAt == Some(old(StopTime(pid)))
      ensures delayedStopPid == if pid.Some? then pid.value else NO_PID
      ensures pid.Some? || currPid.pil == 0 ==> delayedStopAt == Some(timestamp + 30.0)
      ensures pid.None? && currPid.pil != 0 ==> delayedStopAt == Some(lc[currPid.channel].lastAt + 31.0)
    {
      assert vcrState == Rec;
      delayedStopPid := if pid.None? then NO_PID else pid.value;
      if pid.None? && currPid.pil != 0 {
        delayedStopAt := Some(lc[currPid.channel].lastAt + 31.0);
      } else {
        delayedStopAt := Some(timestamp + 30.0);
      }
    }

    /** A recording which begins lasts as long as was announced. */
    method StartRecordingByPil(p: Program, pid: Pid)
      requires Valid() && !timerControlMode && (vcrState == Scan || vcrState == Ptr) && p in schedule
        && pid.channel < CHANNELS
      modifies this`vcrState, this`vcrStateSince, this`currProgram, this`currPid, p
      ensures Valid() && vcrState == Rec && vcrStateSince == timestamp && currProgram == p && currPid == pid
        && p.continues
      ensures p.endTime - p.startTime == old(p.endTime - p.startTime)
      ensures p.startTime == if old(p.continues) then old(p.startTime) else audienceTime
    {
      assert !timerControlMode;
      assert vcrState == Scan || vcrState == Ptr;
      if !p.continues {
        p.endTime := p.endTime + (audienceTime - p.startTime);
        p.startTime := audienceTime;
        p.continues := true;
      }
      ChangeState(Rec);
      currProgram := p;
      currPid := pid;
    }

    method PrepareToRecordByPil(p: Program, pid: Pid)
      requires Valid() && !timerControlMode && vcrState == Scan && p in schedule && pid.channel < CHANNELS
      modifies this`vcrState, this`vcrStateSince, this`currProgram, this`currPid
      ensures Valid() && vcrState == Ptr && vcrStateSince == timestamp && currProgram == p && currPid == pid
    {
      assert !timerControlMode;
      assert vcrState == Scan;
      ChangeState(Ptr);
      currProgram := p;
      currPid := pid;
    }

    method StartRecordingByTimer(p: Program)
      requires Valid() && timerControlMode && vcrState == Scan && p in schedule
      modifies this`vcrState, this`vcrStateSince, this`currProgram, this`currPid
      ensures Valid() && vcrState == Rec && currProgram == p && currPid == NO_PID
    {
      assert timerControlMode;
      assert vcrState == Scan;
      ChangeState(Rec);
      currProgram := p;
      currPid := NO_PID;
    }

    /** The program stays on the schedule if it may continue. */
    predicate MayContinue(pid: Option<Pid>)
      reads this
    {
      timerControlMode || (pid.Some? && pid.value.pil == PIL_INTERRUPTION)
    }

    method RemoveProgramIfEnded(p: Program, pid: Option<Pid>)
      requires Valid() && (vcrState == Stby || vcrState == Scan)
      modifies this`schedule, this`currProgram
      ensures Valid() && Within(schedule, old(schedule))
      ensures MayContinue(pid) <==> timerControlMode || (pid.Some? && pid.value.pil == PIL_INTERRUPTION)
      ensures if MayContinue(pid) then schedule == old(schedule) && currProgram == old(currProgram)
              else
                && Without(old(schedule), p, schedule) && p !in schedule
                && currProgram == if p == old(currProgram) then null else old(currProgram)
    {
      if timerControlMode {
        return;
      } else if pid.Some? && pid.value.pil == PIL_INTERRUPTION {
        return;
      }
      RemoveProgram(p);
    }

    // ---- Signals -------------------------------------------------------------------------

    /** No program gets longer or shorter. */
    twostate predicate SameDurations()
      reads programs
    {
      forall p :: p in programs ==> p.endTime - p.startTime == old(p.endTime - p.startTime)
    }

    /** The clock takes over. What is being prepared is recorded, and a recording goes on, for the
        announced time or until its planned end. A program which was about to begin is recorded for its
        announced duration, one minute, and the time since the preparation began. */
    twostate predicate ClockTakesOver()
      requires old(Valid())
      reads `vcrState, `vcrStateSince, `timerControlMode, `delayedStopAt, `delayedStopPid, `schedule
      reads `currProgram, `currPid, `timestamp, `audienceTime, programs
    {
      && timerControlMode && schedule == old(schedule) && currProgram == old(currProgram)
      && vcrState == (if old(vcrState) == Ptr then Rec else old(vcrState))
      && (old(vcrState) == Ptr ==>
            && currPid == NO_PID && currProgram != null && currProgram in programs
            && currProgram.startTime == audienceTime
            && currProgram.endTime == LostEnd(old(currProgram.endTime - currProgram.startTime), audienceTime,
                                              old(vcrStateSince), timestamp))
      && (old(vcrState) != Ptr ==> SameDurations())
      && (old(vcrState) == Rec ==>
            if old(delayedStopAt).Some? then delayedStopAt == old(delayedStopAt)
            else if old(currProgram.startTime == currProgram.endTime) then delayedStopAt == Some(old(StopTime(None)))
            else delayedStopAt == None && currPid == NO_PID)
    }

    /** Without any signal the recorder falls back to the clock. */
    method SignalOrServiceLost()
      requires Valid() && vcrState != Stby
      modifies this`timerControlMode, this`vcrState, this`vcrStateSince, this`currPid, this`delayedStopAt,
        this`delayedStopPid, programs
      ensures Valid() && timerControlMode
      ensures if old(timerControlMode) then SameRecording() && SameDurations() else ClockTakesOver()
    {
      if timerControlMode {
        return;
      }
      timerControlMode := true;
      match vcrState
      case Stby => assert false;
      case Scan =>
      case Ptr =>
        var p := currProgram;
        p.endTime := p.endTime - p.startTime + audienceTime;
        var since := vcrStateSince - timestamp;
        p.endTime := Seconds(p.endTime as real + (60.0 - AtMost60(since)));
        p.startTime := audienceTime;
        ChangeState(Rec);
        currPid := NO_PID;
      case Rec =>
        if delayedStopAt.Some? {
        } else if currProgram.startTime == currProgram.endTime {
          StopRecordingIn30s(None);
        } else {
          currPid := NO_PID;
        }
    }

    /** The label of the current program is gone; pid is what came instead, if anything. */
    function StopsAtOnce(pid: Option<Pid>): bool
      reads this
    {
      if pid.Some? && !pid.value.luf && (pid.value.pil == PIL_INTERRUPTION || pid.value.pil == PIL_INHIBIT_TERMINATE)
      then pid.value.mi
      else currPid.pil == 0 || currPid.mi
    }

    /** A preparation ends. A recording ends now or at a planned time, unless its end was planned before. */
    twostate predicate LabelGone(pid: Option<Pid>)
      requires old(Valid())
      reads `vcrState, `vcrStateSince, `timerControlMode, `delayedStopAt, `delayedStopPid, `schedule
      reads `currProgram, `currPid, `timestamp, `audienceTime
    {
      && currPid == old(currPid) && (old(vcrState) != Scan ==> timerControlMode == old(timerControlMode))
      && (old(vcrState) == Ptr ==>
            vcrState == Scan && vcrStateSince == timestamp && schedule == old(schedule)
              && currProgram == old(currProgram))
      && (old(vcrState) == Rec && old(delayedStopAt).Some? ==> SameRecording() && delayedStopPid == old(delayedStopPid))
      && (old(vcrState) == Rec && old(delayedStopAt).None? && old(StopsAtOnce(pid)) ==>
            vcrState == Scan && delayedStopAt == None
            && if old(MayContinue(pid)) then schedule == old(schedule)
              else Without(old(schedule), old(currProgram), schedule))
      && (old(vcrState) == Rec && old(delayedStopAt).None? && !old(StopsAtOnce(pid)) ==>
            vcrState == Rec && delayedStopAt == Some(old(StopTime(pid))) && schedule == old(schedule)
            && currProgram == old(currProgram) && delayedStopPid == if pid.Some? then pid.value else NO_PID)
    }

    /** The MI flag which decides whether a recording ends at once: that of an interruption or inhibit code which came
        instead, else that of the label which is gone. A recording without label ends at once. */
    lemma StopsAtOnceIff(pid: Option<Pid>)
      ensures pid.Some? && !pid.value.luf && Interrupting(pid.value) ==> (StopsAtOnce(pid) <==> pid.value.mi)
      ensures pid.None? || pid.value.luf || !Interrupting(pid.value) ==>
        (StopsAtOnce(pid) <==> (currPid.pil != 0 ==> currPid.mi))
    {}

    method PilNoLongerTransmitted(pid: Option<Pid>)
      requires Valid() && !timerControlMode && (vcrState == Ptr || vcrState == Rec)
      modifies this`vcrState, this`vcrStateSince, this`delayedStopAt, this`delayedStopPid, this`schedule,
        this`currProgram
      ensures Valid() && Within(schedule, old(schedule)) && LabelGone(pid)
    {
      match vcrState {
        case Stby => assert false;
        case Scan => assert false;
        case Ptr =>
          assert !timerControlMode;
          ChangeState(Scan);
          return;
        case Rec =>
          assert !timerControlMode;
          if delayedStopAt.Some? {
            return;
          }
      }
      var mi;
      if pid.Some? && !pid.value.luf && (pid.value.pil == PIL_INTERRUPTION || pid.value.pil == PIL_INHIBIT_TERMINATE) {
        mi := pid.value.mi;
      } else if currPid.pil == 0 {
        mi := true;
      } else {
        mi := currPid.mi;
      }
      if mi {
        StopRecordingNow();
        RemoveProgramIfEnded(currProgram, pid);
      } else {
        StopRecordingIn30s(pid);
      }
    }

    /** An interruption or the end of a program. It concerns the current program only on its own channel, and
        not when that is recorded by the clock. */
    twostate predicate Interrupts(pid: Pid)
      requires old(Valid())
      reads `vcrState, `vcrStateSince, `timerControlMode, `delayedStopAt, `delayedStopPid, `schedule
      reads `currProgram, `currPid, `timestamp, `audienceTime
    {
      if old(vcrState) == Scan then
        !timerControlMode && vcrState == Scan && vcrStateSince == old(vcrStateSince)
          && delayedStopAt == old(delayedStopAt) && schedule == old(schedule) && currProgram == old(currProgram)
          && currPid == old(currPid)
      else if (old(vcrState) == Rec && old(timerControlMode)) || pid.channel != old(currPid.channel)
        then SameRecording()
      else LabelGone(Some(pid))
    }

    method ReceivedIntRit(pid: Pid)
      requires Valid() && vcrState != Stby
      modifies this`timerControlMode, this`vcrState, this`vcrStateSince, this`delayedStopAt, this`delayedStopPid,
        this`schedule, this`currProgram
      ensures Valid() && vcrState != Stby && Within(schedule, old(schedule))
      ensures Interrupts(pid)
    {
      match vcrState {
        case Stby => assert false;
        case Scan =>
          timerControlMode := false;
          return;
        case Ptr =>
          assert !timerControlMode;
          if pid.channel != currPid.channel {
            return;
          }
        case Rec =>
          if timerControlMode {
            return;
          } else if pid.channel != currPid.channel {
            return;
          }
      }
      PilNoLongerTransmitted(Some(pid));
    }

    /** Recording, or preparing to record, the first program with the label. */
    twostate predicate Begins(pid: Pid)
      reads `vcrState, `vcrStateSince, `timerControlMode, `delayedStopAt, `delayedStopPid, `schedule
      reads `currProgram, `currPid, `timestamp, `audienceTime
    {
      && !timerControlMode && vcrState == (if pid.prf then Ptr else Rec) && currPid == pid && delayedStopAt == None
      && vcrStateSince == timestamp && currProgram != null && FirstWithPil(schedule, pid.pil, currProgram)
    }

    /** What follows when no program is being recorded. */
    method Begin(p: Program?, pid: Pid)
      requires Valid() && vcrState == Scan && !timerControlMode && pid.channel < CHANNELS
      requires p == null ==> !Scheduled(schedule, pid.pil)
      requires p != null ==> FirstWithPil(schedule, pid.pil, p)
      modifies this`vcrState, this`vcrStateSince, this`currProgram, this`currPid, programs
      ensures Valid() && vcrState != Stby
      ensures if Scheduled(schedule, pid.pil) then Begins(pid) else SameRecording()
      ensures SameDurations()
    {
      assert vcrState == Scan;
      if p == null {
        return;
      }
      if pid.prf {
        PrepareToRecordByPil(p, pid);
      } else {
        StartRecordingByPil(p, pid);
      }
    }

    /** A label arrives. What it means depends on the state of the recorder. */
    twostate predicate Means(pid: Pid)
      requires old(Valid())
      reads `vcrState, `vcrStateSince, `timerControlMode, `delayedStopAt, `delayedStopPid, `schedule
      reads `currProgram, `currPid, `timestamp, `audienceTime
    {
      // No program yet.
      && (old(vcrState) == Scan ==>
            schedule == old(schedule)
            && if !pid.luf && Scheduled(schedule, pid.pil) then Begins(pid)
               else vcrState == Scan && !timerControlMode && delayedStopAt == None && currProgram == old(currProgram))
      // About to record.
      && (old(vcrState) == Ptr && pid.channel != old(currPid.channel) ==> SameRecording())
      && (old(vcrState) == Ptr && pid.channel == old(currPid.channel) ==>
            schedule == old(schedule)
            && if pid.luf then vcrState == Scan
               else if pid.pil != old(currPid.pil) then if Scheduled(schedule, pid.pil) then Begins(pid)
                 else vcrState == Scan
               else if pid.prf && timestamp < old(vcrStateSince) + 60.0 then SameRecording()
               else vcrState == Rec && currProgram == old(currProgram) && currPid == pid)
      // Recording by the clock.
      && (old(vcrState) == Rec && old(timerControlMode) ==>
            schedule == old(schedule)
            && if pid.luf then SameRecording()
               else if FirstWithPil(schedule, pid.pil, old(currProgram)) then
                 vcrState == Rec && !timerControlMode && currProgram == old(currProgram) && currPid == pid
                   && delayedStopAt == None
               else if Scheduled(schedule, pid.pil) then Begins(pid)
               else vcrState == Rec && timerControlMode && delayedStopAt == Some(old(StopTime(None))))
      // Recording by labels.
      && (old(vcrState) == Rec && !old(timerControlMode) && pid.channel != old(currPid.channel) ==> SameRecording())
      && (old(vcrState) == Rec && !old(timerControlMode) && pid.channel == old(currPid.channel) ==>
            if !pid.luf && pid.pil == old(currPid.pil) then
              vcrState == Rec && delayedStopAt == None && schedule == old(schedule) && currProgram == old(currProgram)
                && currPid == old(currPid) && !timerControlMode
            else if old(delayedStopAt).Some? then SameRecording()
            else if old(StopsAtOnce(Some(pid))) then
              if !pid.luf && Scheduled(schedule, pid.pil) then Begins(pid) else vcrState == Scan
            else vcrState == Rec && delayedStopAt == Some(old(StopTime(Some(pid)))) && delayedStopPid == pid)
    }

    method ReceivedPil(pid: Pid)
      requires Valid() && vcrState != Stby && pid.channel < CHANNELS
      modifies this`timerControlMode, this`vcrState, this`vcrStateSince, this`delayedStopAt, this`delayedStopPid,
        this`schedule, this`currProgram, this`currPid, programs
      ensures Valid() && vcrState != Stby && Within(schedule, old(schedule))
      ensures Means(pid) && SameDurations()
    {
      hide FirstWithPil, Scheduled, Without, Distinct;
      var p: Program? := null;
      match vcrState {
        case Stby => assert false;
        case Scan =>
          timerControlMode := false;
          if pid.luf {
            return;
          }
          p := FindProgramByPil(pid.pil);
        case Ptr =>
          assert !timerControlMode;
          if pid.channel != currPid.channel {
            return;
          } else if pid.luf {
            PilNoLongerTransmitted(Some(pid));
            return;
          } else if pid.pil != currPid.pil {
            PilNoLongerTransmitted(Some(pid));
            p := FindProgramByPil(pid.pil);
          } else {
            if pid.prf {
              if timestamp >= vcrStateSince + 60.0 {
                // Preparing takes no longer than a minute, whatever the flag says.
              } else {
                return;
              }
            }
            StartRecordingByPil(currProgram, pid);
            return;
          }
        case Rec =>
          if timerControlMode {
            if pid.luf {
              return;
            }
            p := FindProgramByPil(pid.pil);
            if p != null { OneFirst(schedule, pid.pil, p); } else { NoneFirst(schedule, pid.pil); }
            if p == currProgram {
              timerControlMode := false;
              currPid := pid;
              delayedStopAt := None;
              return;
            } else if p == null {
              StopRecordingIn30s(None);
              return;
            } else {
              timerControlMode := false;
              StopRecordingNow();
            }
          } else if pid.channel != currPid.channel {
            return;
          } else if pid.luf {
            PilNoLongerTransmitted(Some(pid));
            return;
          } else if pid.pil == currPid.pil {
            delayedStopAt := None;
            return;
          } else {
            PilNoLongerTransmitted(Some(pid));
            if vcrState != Scan {
              return;
            }
            p := FindProgramByPil(pid.pil);
          }
      }
      assert vcrState == Scan;
      Begin(p, pid);
    }

    predicate TeletextAvailable()
      requires |lc| == CHANNELS
      reads `lc
    {
      lc[0].pil != 0 || lc[1].pil != 0 || lc[2].pil != 0 || lc[3].pil != 0
    }

    /** The sources which count: Teletext, and in its absence VPS. */
    predicate Counts(pid: Pid)
      requires |lc| == CHANNELS
      reads `lc
    {
      pid.channel < VPS || (pid.channel == VPS && !TeletextAvailable())
    }

    /** VPS counts only when there is no label on any Teletext channel. */
    lemma CountsIff(pid: Pid)
      requires |lc| == CHANNELS
      ensures pid.channel < VPS ==> Counts(pid)
      ensures pid.channel == VPS ==> (Counts(pid) <==> forall i: nat :: i < VPS ==> lc[i].pil == 0)
      ensures pid.channel > VPS ==> !Counts(pid)
    {
      assert TeletextAvailable() ==> exists i: nat :: i < VPS && lc[i].pil != 0;
    }

    /** What a program ID changes, but for the channel it came from. */
    twostate predicate Handles(pid: Pid)
      requires old(Valid())
      reads `vcrState, `vcrStateSince, `timerControlMode, `delayedStopAt, `delayedStopPid, `schedule
      reads `currProgram, `currPid, `timestamp, `audienceTime, programs
    {
      if !old(Counts(pid)) then SameRecording() && SameDurations()
      else if ByClock(pid) then
        timerControlMode && if old(timerControlMode) then SameRecording() && SameDurations() else ClockTakesOver()
      else if Interrupting(pid) then Interrupts(pid) && SameDurations()
      else Means(pid) && SameDurations()
    }

    /** A program ID from any source. */
    method EventHandler(pid: Pid)
      requires Valid() && vcrState != Stby && pid.channel < CHANNELS
      modifies this, programs
      ensures Valid() && vcrState != Stby && timestamp == old(timestamp) && audienceTime == old(audienceTime)
      ensures Within(schedule, old(schedule))
      ensures lc == if pid.channel > VPS then old(lc) else old(lc)[pid.channel := LcState(pid.pil, timestamp)]
      ensures Handles(pid)
    {
      hide Means, Interrupts, ClockTakesOver;
      assert vcrState != Stby;
      if pid.channel > VPS {
        return;
      }
      if pid.channel == VPS && TeletextAvailable() {
      } else if pid.pil == PIL_TIMER_CONTROL || pid.pil == PIL_CONTINUE {
        SignalOrServiceLost();
      } else if pid.pil == PIL_INTERRUPTION || pid.pil == PIL_INHIBIT_TERMINATE {
        ReceivedIntRit(pid);
      } else {
        ReceivedPil(pid);
      }
      lc := lc[pid.channel := LcState(pid.pil, timestamp)];
    }

    // ---- Once per second -----------------------------------------------------------------

    predicate Expected(p: Program)
      reads this, p
    {
      p.startTime <= audienceTime < p.endTime || p.pilValidStart <= audienceTime < p.pilValidEnd
    }

    method InPilValidityWindow() returns (b: bool)
      ensures b <==> exists i :: 0 <= i < |schedule| && Expected(schedule[i])
      ensures b <==> exists i :: 0 <= i < |schedule| && var p := schedule[i];
        (p.startTime <= audienceTime < p.endTime) || (p.pilValidStart <= audienceTime < p.pilValidEnd)
    {
      for i := 0 to |schedule|
        invariant forall j :: 0 <= j < i ==> !Expected(schedule[j])
      {
        var p := schedule[i];
        if (audienceTime >= p.startTime && audienceTime < p.endTime)
          || (audienceTime >= p.pilValidStart && audienceTime < p.pilValidEnd)
        {
          return true;
        }
      }
      b := false;
    }

    /** The announced time of a program has come. */
    predicate Running(p: Program)
      reads `audienceTime, p
    {
      p.startTime <= audienceTime < p.endTime
    }

    /** Program p is the first one running. */
    predicate FirstRunning(p: Program)
      reads `schedule, `audienceTime, schedule
    {
      exists i :: 0 <= i < |schedule| && schedule[i] == p && Running(p)
        && forall j :: 0 <= j < i ==> !Running(schedule[j])
    }

    /** Starts and stops recordings by the clock. */
    twostate predicate ClockDecides()
      requires old(Valid())
      reads this, schedule
    {
      && vcrState != Stby && vcrState != Ptr && timerControlMode
      && (old(vcrState) == Rec && (old(delayedStopAt).Some? || audienceTime < old(currProgram.endTime)) ==>
            SameRecording())
      && (old(vcrState) == Rec && old(delayedStopAt).None? && audienceTime >= old(currProgram.endTime) ==>
            Without(old(schedule), old(currProgram), schedule))
      && (old(vcrState) == Scan ==> schedule == old(schedule))
      && (vcrState == Scan ==> forall p :: p in schedule ==> !Running(p))
      && (vcrState == Rec && (old(vcrState) == Scan || !SameRecording()) ==>
            currProgram != null && FirstRunning(currProgram) && currPid == NO_PID)
    }

    method TimerControl()
      requires Valid() && timerControlMode && vcrState != Stby
      modifies this`vcrState, this`vcrStateSince, this`delayedStopAt, this`schedule, this`currProgram, this`currPid
      ensures Valid() && Within(schedule, old(schedule)) && ClockDecides()
    {
      hide FirstRunning, Running;
      assert timerControlMode;
      match vcrState {
        case Stby => assert false;
        case Ptr => assert false;
        case Scan =>
        case Rec =>
          if delayedStopAt.Some? {
            return;
          } else if audienceTime >= currProgram.endTime {
            StopRecordingNow();
            RemoveProgram(currProgram);
          } else {
            return;
          }
          assert vcrState == Scan;
      }
      var p := FindRunning();
      if p != null {
        StartRecordingByTimer(p);
      }
    }

    method FindRunning() returns (p: Program?)
      ensures p == null ==> forall q :: q in schedule ==> !Running(q)
      ensures p != null ==> p in schedule && FirstRunning(p) && p.startTime <= audienceTime < p.endTime
      ensures p == null ==> forall q :: q in schedule ==> !(q.startTime <= audienceTime < q.endTime)
    {
      for i := 0 to |schedule|
        invariant forall j :: 0 <= j < i ==> !Running(schedule[j])
      {
        if audienceTime >= schedule[i].startTime && audienceTime < schedule[i].endTime {
          return schedule[i];
        }
      }
      p := null;
    }

    /** The channels with and without a signal. */
    method CheckChannels() returns (active: set<nat>, lost: set<nat>)
      requires |lc| == CHANNELS
      ensures active == ActiveChannels(lc, timestamp) && lost == LostChannels(lc, timestamp)
    {
      active, lost := {}, {};
      for i := 0 to CHANNELS
        invariant active == set j | j in ActiveChannels(lc, timestamp) && j < i
        invariant lost == set j | j in LostChannels(lc, timestamp) && j < i
      {
        if lc[i].pil != 0 {
          var timeoutAt := lc[i].lastAt + SignalTimeout(i);
          if timestamp >= timeoutAt {
            lost := lost + {i};
          } else {
            active := active + {i};
          }
        }
      }
    }

    method ForgetChannels(lost: set<nat>)
      requires Valid()
      modifies this`lc
      ensures Valid() && forall i: nat :: i < CHANNELS ==>
        lc[i] == if i in lost then LcState(0, timestamp) else old(lc)[i]
    {
      for i := 0 to CHANNELS
        invariant |lc| == CHANNELS
        invariant forall j: nat :: j < CHANNELS ==>
          lc[j] == if j < i && j in lost then LcState(0, timestamp) else old(lc)[j]
      {
        if i in lost {
          lc := lc[i := LcState(0, timestamp)];
        }
      }
    }

    ghost function Response(active: set<nat>, lost: set<nat>): Loss
      requires |lc| == CHANNELS
      reads this
    {
      LossResponse(active, lost, vcrState == Ptr || vcrState == Rec, currPid, lc)
    }

    /** The recording, or its preparation, goes on; the label is expected on VPS. */
    twostate predicate Follows()
      reads `vcrState, `vcrStateSince, `timerControlMode, `delayedStopAt, `delayedStopPid, `schedule
      reads `currProgram, `currPid, `timestamp, `audienceTime
    {
      && vcrState == old(vcrState) && vcrStateSince == old(vcrStateSince) && timerControlMode == old(timerControlMode)
      && delayedStopAt == old(delayedStopAt) && schedule == old(schedule) && currProgram == old(currProgram)
      && currPid == old(currPid).(channel := VPS)
    }

    /** The new state of the recorder. */
    twostate predicate Responds(loss: Loss)
      requires old(Valid())
      reads this, programs
    {
      match loss
      case Nothing => SameRecording()
      case Clock => ClockTakesOver()
      case Follow => Follows()
      case End => LabelGone(None)
    }

    /** What the loss of signals means. */
    method RespondToLoss(active: set<nat>, lost: set<nat>)
      requires Valid() && vcrState != Stby && !timerControlMode && active !! lost
      modifies this`timerControlMode, this`vcrState, this`vcrStateSince, this`currPid, this`delayedStopAt,
        this`delayedStopPid, this`schedule, this`currProgram, programs
      ensures Valid() && vcrState != Stby && Within(schedule, old(schedule))
      ensures Responds(old(Response(active, lost)))
    {
      if active == {} {
        if lost != {} {
          SignalOrServiceLost();
        }
      } else {
        // The mask of the Teletext channels has only the first one.
        if active == {VPS} && 0 in lost {
          if currPid.pil == lc[VPS].pil {
            currPid := currPid.(channel := VPS);
          }
        }
        if (vcrState == Ptr || vcrState == Rec) && currPid.pil != 0 && currPid.channel in lost {
          PilNoLongerTransmitted(None);
        }
      }
    }

    /** Detects the loss of signals. */
    method PdcSignalCheck()
      requires Valid() && vcrState != Stby
      modifies this, programs
      ensures Valid() && vcrState != Stby && Within(schedule, old(schedule))
      ensures timestamp == old(timestamp) && audienceTime == old(audienceTime)
      ensures old(timerControlMode) ==> SameRecording() && lc == old(lc)
      ensures var lost, active := old(LostChannels(lc, timestamp)), old(ActiveChannels(lc, timestamp));
        !old(timerControlMode) ==>
          && (forall i: nat :: i < CHANNELS ==> lc[i] == if i in lost then LcState(0, timestamp) else old(lc)[i])
          && Responds(old(Response(active, lost)))
    {
      hide LostChannels, ActiveChannels, LossResponse;
      if timerControlMode {
        return;
      }
      var active, lost := CheckChannels();
      ActiveOrLost(lc, timestamp);
      RespondToLoss(active, lost);
      ForgetChannels(lost);
    }

    // ---- The main loops ---------------------------------------------------------------------

    /** The planned stop does not end the program for good. */
    predicate StopInterrupts()
      reads this
    {
      MayContinue(Some(delayedStopPid))
    }

    /** A planned stop is due. */
    method DelayedStop()
      requires Valid() && vcrState != Stby
      modifies this`vcrState, this`vcrStateSince, this`delayedStopAt, this`schedule, this`currProgram
      ensures Valid() && vcrState != Stby && Within(schedule, old(schedule))
      ensures var due := old(delayedStopAt).Some? && timestamp >= old(delayedStopAt).value;
        if due then vcrState == Scan
          && if old(StopInterrupts()) then schedule == old(schedule)
            else currProgram == null && old(currProgram) !in schedule
        else SameRecording()
    {
      if vcrState == Rec && delayedStopAt.Some? && timestamp >= delayedStopAt.value {
        StopRecordingNow();
        assert vcrState == Scan;
        RemoveProgramIfEnded(currProgram, Some(delayedStopPid));
      }
    }

    twostate lemma Unchanged()
      requires unchanged(this)
      ensures SameRecording()
    {}

    /** The program IDs of a frame. */
    method DecodeFrame(pids: seq<Pid>)
      requires Valid() && vcrState != Stby && forall i :: 0 <= i < |pids| ==> pids[i].channel < CHANNELS
      modifies this, programs
      ensures Valid() && vcrState != Stby && Within(schedule, old(schedule))
      ensures timestamp == old(timestamp) && audienceTime == old(audienceTime)
      ensures pids == [] ==> SameRecording() && lc == old(lc) && forall p :: p in programs ==> unchanged(p)
      ensures |pids| == 1 ==> Handles(pids[0])
    {
      hide Handles, SameRecording;
      if pids == [] {
        Unchanged();
        return;
      }
      EventHandler(pids[0]);
      for i := 1 to |pids|
        invariant Valid() && vcrState != Stby && Within(schedule, old(schedule))
        invariant timestamp == old(timestamp) && audienceTime == old(audienceTime)
        invariant |pids| == 1 ==> Handles(pids[0])
        modifies this, programs
      {
        EventHandler(pids[i]);
      }
    }

    /** What the loss of signals means at some time. */
    ghost function LossAt(time: real): Loss
      requires |lc| == CHANNELS
      reads this
    {
      Response(ActiveChannels(lc, time), LostChannels(lc, time))
    }

    /** What is done once a second: without timer control signals are checked, and the loss of all of them enables
        it; with it the clock decides. */
    method CheckSignals()
      requires Valid() && vcrState != Stby
      modifies this, programs
      ensures Valid() && vcrState != Stby && Within(schedule, old(schedule))
      ensures timestamp == old(timestamp) && audienceTime == old(audienceTime)
      ensures old(timerControlMode) ==> ClockDecides()
      ensures !old(timerControlMode) ==>
        if old(LossAt(timestamp)) == Clock then timerControlMode
          else Responds(old(LossAt(timestamp))) && !timerControlMode
      ensures timerControlMode && vcrState == Scan ==> forall p :: p in schedule ==> !Running(p)
    {
      hide Running, FirstRunning, LostChannels, ActiveChannels;
      if !timerControlMode {
        PdcSignalCheck();
      }
      if timerControlMode {
        TimerControl();
      }
    }

    predicate Ordinary(pid: Pid) {
      !ByClock(pid) && !Interrupting(pid)
    }

    /** A frame with one ordinary label. A planned stop which is due comes first. If no program is being recorded, the
        first one with this label is begun, and when there is none everything stays as it is. A recording by this label
        goes on, even if its end was planned. */
    twostate predicate LabelSeen(pid: Pid)
      requires old(Valid())
      reads `vcrState, `vcrStateSince, `timerControlMode, `delayedStopAt, `delayedStopPid, `schedule
      reads `currProgram, `currPid, `timestamp, `audienceTime
    {
      && (old(vcrState) == Scan ==>
            !timerControlMode && schedule == old(schedule) && delayedStopAt == None
            && if !pid.luf && Scheduled(schedule, pid.pil) then Begins(pid)
               else (vcrState == Scan || vcrState == Stby) && currProgram == old(currProgram))
      && (old(vcrState) == Rec && !old(timerControlMode) && pid.channel == old(currPid.channel)
          && !pid.luf && pid.pil == old(currPid.pil)
          && (old(delayedStopAt).Some? ==> timestamp < old(delayedStopAt).value) ==>
            vcrState == Rec && !timerControlMode && delayedStopAt == None && schedule == old(schedule)
            && currProgram == old(currProgram))
      && (old(delayedStopAt).Some? && timestamp >= old(delayedStopAt).value ==>
            !timerControlMode
            && if !pid.luf && Scheduled(schedule, pid.pil) then Begins(pid) else vcrState == Scan || vcrState == Stby)
    }

    /** What a check of the signals did in a frame without labels. */
    twostate predicate Checked(loss: Loss)
      requires old(Valid())
      reads `vcrState, `vcrStateSince, `timerControlMode, `delayedStopAt, `delayedStopPid, `schedule
      reads `currProgram, `currPid, `timestamp, `audienceTime
    {
      match loss
      case Clock => timerControlMode
      case Follow => if old(vcrState) == Scan then vcrState == Scan || vcrState == Stby else Follows()
      case Nothing =>
        if old(vcrState) == Scan then (vcrState == Scan || vcrState == Stby) && schedule == old(schedule)
        else SameRecording()
      case End =>
        && (old(vcrState) == Ptr ==> (vcrState == Scan || vcrState == Stby) && schedule == old(schedule))
        && (old(vcrState) == Rec ==>
              if old(delayedStopAt).Some? then SameRecording()
              else if old(StopsAtOnce(None)) then
                (vcrState == Scan || vcrState == Stby) && Without(old(schedule), old(currProgram), schedule)
              else
                && vcrState == Rec && delayedStopAt == Some(old(lc[currPid.channel].lastAt) + 31.0)
                && schedule == old(schedule) && currProgram == old(currProgram))
    }

    /** A planned stop comes before the program IDs of the frame. */
    method CaptureAndDecodeFrame(time: real, pids: seq<Pid>)
      requires Valid() && vcrState != Stby && forall i :: 0 <= i < |pids| ==> pids[i].channel < CHANNELS
      modifies this, programs
      ensures Valid() && vcrState != Stby && Within(schedule, old(schedule))
      ensures timestamp == time && audienceTime == Seconds(time)
      ensures pids == [] ==> lc == old(lc) && forall p :: p in programs ==> unchanged(p)
      ensures pids == [] ==>
        if old(delayedStopAt).Some? && time >= old(delayedStopAt).value then vcrState == Scan else SameRecording()
      ensures |pids| == 1 && old(Counts(pids[0])) && Ordinary(pids[0]) ==> LabelSeen(pids[0])
    {
      hide Distinct, Without, ClockTakesOver, Interrupts, FirstWithPil, Scheduled, TeletextAvailable;
      timestamp := time;
      audienceTime := Seconds(timestamp);
      DelayedStop();
      DecodeFrame(pids);
    }

    /** One frame: its time, and the program IDs it carries. */
    method CaptureFrame(time: real, pids: seq<Pid>, lastTimestamp: real)
      requires Valid() && vcrState != Stby && forall i :: 0 <= i < |pids| ==> pids[i].channel < CHANNELS
      modifies this, programs
      ensures Valid() && timestamp == time && audienceTime == Seconds(time) && Within(schedule, old(schedule))
      ensures vcrState == Stby ==> forall p :: p in schedule ==> !Expected(p)
      // Under timer control no program which is running is missed for more than a second.
      ensures Seconds(lastTimestamp) != Seconds(time) && timerControlMode && vcrState == Scan ==>
        forall p :: p in schedule ==> !Running(p)
      // Without any news the frame matters only when a planned stop is due.
      ensures pids == [] && Seconds(lastTimestamp) == Seconds(time) ==>
        if old(delayedStopAt).Some? && time >= old(delayedStopAt).value then vcrState == Scan || vcrState == Stby
        else old(vcrState) == Scan || SameRecording()
      ensures |pids| == 1 && Seconds(lastTimestamp) == Seconds(time) && old(Counts(pids[0])) && Ordinary(pids[0]) ==>
        LabelSeen(pids[0])
      // Once a second the loss of signals is noticed, or the clock decides.
      ensures
        var due := old(delayedStopAt).Some? && time >= old(delayedStopAt).value;
        pids == [] && Seconds(lastTimestamp) != Seconds(time) && !due ==>
          if old(timerControlMode) then vcrState == Stby || ClockDecides() else Checked(old(LossAt(time)))
      // The recorder waits for something only while there is something to wait for.
      ensures vcrState == Scan ==> exists i :: 0 <= i < |schedule| && Expected(schedule[i])
    {
      hide Distinct, Without, FirstWithPil, Scheduled, LostChannels, ActiveChannels, LossResponse;
      CaptureAndDecodeFrame(time, pids);
      if Seconds(lastTimestamp) != Seconds(timestamp) {
        CheckSignals();
      }
      StandByIfDone();
    }

    /** The recorder stands by when no program is expected. */
    method StandByIfDone()
      requires Valid()
      modifies this`vcrState, this`vcrStateSince
      ensures Valid()
      ensures if old(vcrState) == Scan then vcrState == Scan || vcrState == Stby
        else vcrState == old(vcrState) && vcrStateSince == old(vcrStateSince)
      ensures vcrState == Scan ==> exists i :: 0 <= i < |schedule| && Expected(schedule[i])
      ensures old(vcrState) == Scan && vcrState == Stby ==> forall p :: p in schedule ==> !Expected(p)
      ensures vcrState == old(vcrState) ==> vcrStateSince == old(vcrStateSince)
    {
      if vcrState == Scan {
        var expected := InPilValidityWindow();
        if !expected {
          ChangeState(Stby);
        }
      }
    }

    /** Frames until all programs are over, or there are no more frames. */
    method CaptureLoop(times: seq<real>, pids: seq<seq<Pid>>) returns (n: nat)
      requires Valid() && vcrState == Stby && |pids| == |times|
      requires forall i, j :: 0 <= i < |pids| && 0 <= j < |pids[i]| ==> pids[i][j].channel < CHANNELS
      modifies this, programs
      ensures Valid() && n <= |times| && Within(schedule, old(schedule)) && (n < |times| ==> vcrState == Stby)
    {
      assert vcrState == Stby;
      ChangeState(Scan);
      var lastTimestamp := 0.0;
      n := 0;
      while vcrState != Stby && n < |times|
        invariant n <= |times| && Valid() && Within(schedule, old(schedule))
        modifies this, programs
      {
        CaptureFrame(times[n], pids[n], lastTimestamp);
        lastTimestamp := timestamp;
        n := n + 1;
      }
    }

    /** The recorder waits, and then captures, until the schedule is empty. time is the time at each
        start of the loop; the waiting itself changes nothing else. */
    method StandbyLoop(time: seq<int>, times: seq<seq<real>>, pids: seq<seq<seq<Pid>>>)
      requires Valid() && vcrState == Stby && |time| == |times| == |pids|
      requires forall k :: 0 <= k < |pids| ==> |pids[k]| == |times[k]|
      requires forall k, i, j :: 0 <= k < |pids| && 0 <= i < |pids[k]| && 0 <= j < |pids[k][i]| ==>
        pids[k][i][j].channel < CHANNELS
      modifies this, programs
      ensures Valid()
    {
      var k := 0;
      while k < |time| && vcrState == Stby
        invariant k <= |time| && Valid() && Within(schedule, old(schedule))
        modifies this, programs
      {
        assert vcrState == Stby;
        audienceTime := time[k];
        RemoveStalePrograms();
        if schedule == [] {
          return;
        }
        var n := CaptureLoop(times[k], pids[k]);
        k := k + 1;
      }
    }
  }

  lemma ActiveOrLost(lc: seq<LcState>, t: real)
    ensures ActiveChannels(lc, t) !! LostChannels(lc, t)
  {}

  lemma OneFirst(q: seq<Program>, pil: nat, p: Program)
    requires FirstWithPil(q, pil, p)
    ensures Scheduled(q, pil) && forall r :: r in q && FirstWithPil(q, pil, r) ==> r == p
  {}

  lemma NoneFirst(q: seq<Program>, pil: nat)
    requires !Scheduled(q, pil)
    ensures forall r :: r in q ==> !FirstWithPil(q, pil, r)
  {}

  lemma OneRemoved(q: seq<Program>, i: nat, r: seq<Program>)
    requires Distinct(q) && i < |q| && Without(q, q[i], r)
    ensures r == q[..i] + q[i + 1..] && forall p :: p in r <==> p in q && p != q[i]
  {
    var j :| 0 <= j < |q| && q[j] == q[i] && r == q[..j] + q[j + 1..];
    assert forall p :: p in q ==> p in q[..i] || p == q[i] || p in q[i + 1..];
  }
}
