/** The in-memory reminder scheduler: `Channel` records owned by a
    `Scheduler`, and one turn of its day cycle run sequentially. */
module Schedule {
  import opened Timestamps
  import opened DayCycle

  /** `main` regenerates this many reminder instants per cycle, as `__init__` does. */
  const ReminderCount: int := 2

  /** A registered destination and its per-day "time card done" flag. */
  class Channel {
    const name: string
    var timecardDone: bool

    constructor (channelId: string)
      ensures name == channelId && !timecardDone
    {
      name := channelId;
      timecardDone := false;
    }

    /** What a waking `send_at` reads of this channel. */
    function State(): (state: ChannelState)
      reads this
    {
      ChannelState(name, timecardDone)
    }
  }

  /** The states of a list of channels, read in the current heap. */
  function StatesOf(cs: seq<Channel>): (r: seq<ChannelState>)
    reads cs
    ensures |r| == |cs|
    ensures forall j :: 0 <= j < |cs| ==> r[j] == cs[j].State()
  {
    seq(|cs|, j requires 0 <= j < |cs| reads cs => cs[j].State())
  }

  /** Arming over channel objects reads, element by element, as arming over
      their states: each wait holds a reference to its channel. */
  lemma {:induction false} ArmingStates(times: seq<int>, cs: seq<Channel>)
    ensures |Arming(times, StatesOf(cs))| == |Arming(times, cs)|
    ensures forall k :: 0 <= k < |Arming(times, cs)| ==>
      Arming(times, StatesOf(cs))[k] == (Arming(times, cs)[k].0.State(), Arming(times, cs)[k].1)
  {
    if times != [] {
      ArmingStates(times[..|times| - 1], cs);
    }
  }

  /** `send_at(c, sometime)` with `now` the clock reading when the task starts:
      skip a past instant, otherwise wait until it and send if `c` is not done. */
  method SendAt(c: Channel, sometime: int, now: int) returns (sent: seq<Send>)
    ensures sent == SendFor((c.State(), sometime), now)
  {
    var sleepFor := sometime - now;
    if sleepFor < 0 {
      return [];
    }
    // the wait is modelled as the clock reaching `sometime`
    if !c.timecardDone {
      sent := [Send(c.name, sometime)];
    } else {
      sent := [];
    }
  }

  /** A cycle whose waits start no later than the first generated instant,
      over channels none of which is done, reminds every channel at every
      generated instant, time-major. */
  lemma PromptCycleSendsAll(clock: nat -> int, times: seq<int>, states: seq<ChannelState>, now: int)
    requires IsTimeList(times, ReminderCount, clock) && NonDecreasing(clock)
    requires now <= clock(0) + TimeListSpacing
    requires forall j :: 0 <= j < |states| ==> !states[j].done
    ensures |Cycle(times, states, now)| == |Arming(times, states)| == ReminderCount * |states|
    ensures forall k :: 0 <= k < |Arming(times, states)| ==>
      Cycle(times, states, now)[k] == Send(Arming(times, states)[k].0.name, Arming(times, states)[k].1)
  {
    TimeListIncreasing(times, ReminderCount, clock);
    forall i | 0 <= i < |times| ensures now <= times[i] {
      if i > 0 {
        assert times[0] < times[i];
      }
    }
    CycleSendsAll(times, states, now);
  }

  class Scheduler {
    var channels: seq<Channel>
    var times: seq<int>
    var tasks: seq<(Channel, int)>

    /** `Scheduler(socket_client)`; `clock(i)` is the `i`-th clock reading
        taken by `_gen_time_list(2)`. */
    constructor (clock: nat -> int)
      ensures channels == [] && tasks == []
      ensures IsTimeList(times, ReminderCount, clock)
    {
      var initial := GenTimeList(ReminderCount, clock);
      channels := [];
      times := initial;
      tasks := [];
    }

    /** The states of the registered channels, in registration order. */
    function States(): (states: seq<ChannelState>)
      reads this, channels
    {
      StatesOf(channels)
    }

    /** No registered channel has its time card marked done. */
    predicate AllPending()
      reads this, channels
    {
      forall j :: 0 <= j < |channels| ==> !channels[j].timecardDone
    }

    /** `add_channel(channel_id)`: append a fresh channel, not done, with no
        check for an existing channel of the same id. */
    method AddChannel(channelId: string)
      modifies this
      ensures |channels| == |old(channels)| + 1
      ensures channels[..|old(channels)|] == old(channels)
      ensures fresh(channels[|channels| - 1])
      ensures States() == old(States()) + [ChannelState(channelId, false)]
      ensures times == old(times) && tasks == old(tasks)
      ensures AllPending() == old(AllPending())
    {
      var c := new Channel(channelId);
      channels := channels + [c];
      assert StatesOf(channels)[..|channels| - 1] == old(StatesOf(channels));
    }

    /** Arm one wait per (time, channel) pair: for each time in order, every
        channel in list order. */
    method Arm()
      modifies this`tasks
      ensures tasks == Arming(times, channels)
    {
      tasks := [];
      var i := 0;
      while i < |times|
        invariant 0 <= i <= |times|
        invariant tasks == Arming(times[..i], channels)
      {
        var j := 0;
        while j < |channels|
          invariant 0 <= j <= |channels|
          invariant tasks == Arming(times[..i], channels) + Row(times[i], channels[..j])
        {
          tasks := tasks + [(channels[j], times[i])];
          j := j + 1;
          assert Row(times[i], channels[..j]) == Row(times[i], channels[..j - 1]) + [(channels[j - 1], times[i])];
        }
        assert channels[..j] == channels;
        assert times[..i + 1][..i] == times[..i];
        i := i + 1;
      }
      assert times[..i] == times;
    }

    /** `asyncio.gather` over the armed tasks as a sequential walk: every task
        runs `send_at` with the same start reading `now`. */
    method Gather(now: int) returns (sends: seq<Send>)
      requires tasks == Arming(times, channels)
      ensures sends == Cycle(times, States(), now)
    {
      ghost var fires := Arming(times, States());
      ArmingStates(times, channels);
      sends := [];
      var k := 0;
      while k < |tasks|
        invariant 0 <= k <= |tasks|
        invariant sends == Dispatched(fires[..k], now)
      {
        var sent := SendAt(tasks[k].0, tasks[k].1, now);
        assert fires[..k + 1][..k] == fires[..k];
        sends := sends + sent;
        k := k + 1;
      }
      assert fires[..k] == fires;
    }

    /** The end-of-cycle reset: every channel's flag back to false, in place. */
    method ResetAll()
      modifies channels
      ensures States() == Reset(old(States()))
      ensures AllPending()
    {
      var i := 0;
      while i < |channels|
        invariant 0 <= i <= |channels|
        invariant forall j :: 0 <= j < i ==> !channels[j].timecardDone
      {
        channels[i].timecardDone := false;
        i := i + 1;
      }
    }

    /** One turn of the `while True` loop of `main`: regenerate the time list
        from the readings `clock`, arm the waits, run them with start reading
        `now`, then reset every channel. The closing five-second sleep is the
        gap before the next turn. */
    method RunCycle(clock: nat -> int, now: int) returns (sends: seq<Send>)
      modifies this, channels
      ensures channels == old(channels)
      ensures IsTimeList(times, ReminderCount, clock)
      ensures tasks == Arming(times, channels)
      ensures sends == Cycle(times, old(States()), now)
      ensures States() == Reset(old(States()))
      ensures AllPending()
    {
      var generated := GenTimeList(ReminderCount, clock);
      times := generated;
      Arm();
      sends := Gather(now);
      ResetAll();
    }
  }
}
