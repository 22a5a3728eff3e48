/** The value-level meaning of one day cycle of the scheduler: which
    (channel, time) waits are armed, in what order, and which of them end in
    a reminder being sent. */
module DayCycle {

  /** A channel as `send_at` sees it when it wakes: its name and whether its
      time card is done. */
  datatype ChannelState = ChannelState(name: string, done: bool)

  /** One reminder sent to channel `channel` for the target instant `at`. */
  datatype Send = Send(channel: string, at: int)

  /** A fire event: the channel state read on waking and the target instant. */
  type Fire = (ChannelState, int)

  /** The decision of `send_at`: a target strictly before `now` is skipped
      (`sleep_for < 0`); otherwise, after the wait, a reminder goes out
      exactly when the channel is not done. */
  function SendDecision(target: int, now: int, done: bool): (send: bool)
    ensures target < now ==> !send
    ensures now <= target ==> (send <==> !done)
  {
    if target - now < 0 then false else !done
  }

  /** The reminders one fire event produces: none or one. */
  function SendFor(fire: Fire, now: int): (sent: seq<Send>)
    ensures |sent| <= 1
    ensures |sent| == 1 <==> SendDecision(fire.1, now, fire.0.done)
    ensures |sent| == 1 ==> sent[0] == Send(fire.0.name, fire.1)
  {
    if SendDecision(fire.1, now, fire.0.done) then [Send(fire.0.name, fire.1)] else []
  }

  /** The waits armed for one time: every channel, in list order. */
  function Row<C>(t: int, cs: seq<C>): (row: seq<(C, int)>)
  {
    seq(|cs|, j requires 0 <= j < |cs| => (cs[j], t))
  }

  /** The waits armed for a whole time list, time-major. */
  function Arming<C>(times: seq<int>, cs: seq<C>): (waits: seq<(C, int)>)
  {
    if times == [] then [] else Arming(times[..|times| - 1], cs) + Row(times[|times| - 1], cs)
  }

  /** Arming creates |times|·|cs| waits; the wait at position i·|cs| + j is
      for channel j at time i. */
  lemma {:induction false} ArmingTimeMajor<C>(times: seq<int>, cs: seq<C>)
    ensures |Arming(times, cs)| == |times| * |cs|
    ensures forall i, j :: 0 <= i < |times| && 0 <= j < |cs| ==>
      Arming(times, cs)[i * |cs| + j] == (cs[j], times[i])
  {
    ArmingLength(times, cs);
    if times != [] {
      var n, m := |times| - 1, |cs|;
      var front := Arming(times[..n], cs);
      ArmingTimeMajor(times[..n], cs);
      forall i, j | 0 <= i < |times| && 0 <= j < m
        ensures Arming(times, cs)[i * m + j] == (cs[j], times[i])
      {
        if i < n {
          PairIndex(i, j, n, m);
          assert Arming(times, cs)[i * m + j] == front[i * m + j];
          assert times[..n][i] == times[i];
        } else {
          assert Arming(times, cs)[i * m + j] == Row(times[n], cs)[j];
        }
      }
    }
  }

  /** Arming creates one wait per (time, channel) pair. */
  lemma {:induction false} ArmingLength<C>(times: seq<int>, cs: seq<C>)
    ensures |Arming(times, cs)| == |times| * |cs|
  {
    if times != [] {
      ArmingLength(times[..|times| - 1], cs);
      assert |times| * |cs| == (|times| - 1) * |cs| + |cs|;
    }
  }

  /** Position i·m + j of a time-major table of n rows of m entries is in range. */
  lemma PairIndex(i: int, j: int, n: int, m: int)
    requires 0 <= i < n && 0 <= j < m
    ensures 0 <= i * m + j < n * m
  {
    assert i * m <= (n - 1) * m;
  }

  /** A wait is armed exactly for every pairing of a listed time with a
      listed channel. */
  lemma {:induction false} ArmingMember<C>(times: seq<int>, cs: seq<C>, p: (C, int))
    ensures p in Arming(times, cs) <==>
      exists i, j :: 0 <= i < |times| && 0 <= j < |cs| && p == (cs[j], times[i])
  {
    if times != [] {
      var n := |times| - 1;
      ArmingMember(times[..n], cs, p);
      if p in Arming(times[..n], cs) {
        var i, j :| 0 <= i < n && 0 <= j < |cs| && p == (cs[j], times[..n][i]);
        assert p == (cs[j], times[i]);
      } else if p in Row(times[n], cs) {
        var j :| 0 <= j < |cs| && Row(times[n], cs)[j] == p;
        assert p == (cs[j], times[n]);
      } else {
        forall i, j | 0 <= i < |times| && 0 <= j < |cs| ensures p != (cs[j], times[i]) {
          if i < n {
            assert times[..n][i] == times[i];
          } else {
            assert Row(times[n], cs)[j] == (cs[j], times[i]);
          }
        }
      }
    }
  }

  /** The reminders a sequence of fire events sends, walking the events in order. */
  function Dispatched(fires: seq<Fire>, now: int): (sends: seq<Send>)
  {
    if fires == [] then [] else Dispatched(fires[..|fires| - 1], now) + SendFor(fires[|fires| - 1], now)
  }

  /** A reminder is sent exactly for the fire events whose decision says so. */
  lemma {:induction false} DispatchedMember(fires: seq<Fire>, now: int, s: Send)
    ensures s in Dispatched(fires, now) <==>
      exists k :: 0 <= k < |fires| && SendDecision(fires[k].1, now, fires[k].0.done) &&
        s == Send(fires[k].0.name, fires[k].1)
  {
    if fires != [] {
      var n := |fires| - 1;
      DispatchedMember(fires[..n], now, s);
      if s in Dispatched(fires[..n], now) {
        var k :| 0 <= k < n && SendDecision(fires[..n][k].1, now, fires[..n][k].0.done) &&
          s == Send(fires[..n][k].0.name, fires[..n][k].1);
        assert fires[..n][k] == fires[k];
      } else if s !in SendFor(fires[n], now) {
        forall k | 0 <= k < |fires| && SendDecision(fires[k].1, now, fires[k].0.done)
          ensures s != Send(fires[k].0.name, fires[k].1)
        {
          if k < n {
            assert fires[..n][k] == fires[k];
          }
        }
      }
    }
  }

  /** Each fire event sends at most one reminder, and every event sends one
      exactly when every event's decision is to send; then the reminders
      follow the events one for one. */
  lemma {:induction false} DispatchedCount(fires: seq<Fire>, now: int)
    ensures |Dispatched(fires, now)| <= |fires|
    ensures |Dispatched(fires, now)| == |fires| <==>
      forall k :: 0 <= k < |fires| ==> SendDecision(fires[k].1, now, fires[k].0.done)
    ensures |Dispatched(fires, now)| == |fires| ==>
      forall k :: 0 <= k < |fires| ==> Dispatched(fires, now)[k] == Send(fires[k].0.name, fires[k].1)
  {
    if fires != [] {
      var n := |fires| - 1;
      DispatchedCount(fires[..n], now);
      assert forall k :: 0 <= k < n ==> fires[..n][k] == fires[k];
    }
  }

  /** What one day cycle sends, given the time list, the channels' states and
      the instant `now` at which every wait reads the clock. */
  function Cycle(times: seq<int>, states: seq<ChannelState>, now: int): (sends: seq<Send>)
  {
    Dispatched(Arming(times, states), now)
  }

  /** A cycle sends `n` a reminder for `t` exactly when `t` is a listed time
      not before `now` and some listed channel named `n` is not done. */
  lemma CycleMember(times: seq<int>, states: seq<ChannelState>, now: int, name: string, t: int)
    ensures Send(name, t) in Cycle(times, states, now) <==>
      (now <= t &&
       exists i, j :: 0 <= i < |times| && 0 <= j < |states| &&
         times[i] == t && states[j].name == name && !states[j].done)
  {
    var fires := Arming(times, states);
    DispatchedMember(fires, now, Send(name, t));
    if Send(name, t) in Cycle(times, states, now) {
      var k :| 0 <= k < |fires| && SendDecision(fires[k].1, now, fires[k].0.done) &&
        Send(name, t) == Send(fires[k].0.name, fires[k].1);
      ArmingMember(times, states, fires[k]);
    } else {
      forall i, j | 0 <= i < |times| && 0 <= j < |states| && times[i] == t && states[j].name == name
        ensures !(now <= t && !states[j].done)
      {
        ArmingMember(times, states, (states[j], times[i]));
        var k :| 0 <= k < |fires| && fires[k] == (states[j], times[i]);
      }
    }
  }

  /** No more reminders than armed (time, channel) pairs. */
  lemma CycleBound(times: seq<int>, states: seq<ChannelState>, now: int)
    ensures |Cycle(times, states, now)| <= |times| * |states|
  {
    ArmingTimeMajor(times, states);
    DispatchedCount(Arming(times, states), now);
  }

  /** No two fire events are for the same (channel name, target) pair. */
  ghost predicate DistinctKeys(fires: seq<Fire>) {
    forall a, b :: 0 <= a < b < |fires| ==> (fires[a].0.name, fires[a].1) != (fires[b].0.name, fires[b].1)
  }

  /** No reminder appears twice in a list. */
  ghost predicate NoRepeats(sends: seq<Send>) {
    forall a, b :: 0 <= a < b < |sends| ==> sends[a] != sends[b]
  }

  /** With distinct times and distinct channel names, every armed wait is for
      a different (channel name, time) pair. */
  lemma {:induction false} ArmingDistinct(times: seq<int>, states: seq<ChannelState>)
    requires forall a, b :: 0 <= a < b < |times| ==> times[a] != times[b]
    requires forall a, b :: 0 <= a < b < |states| ==> states[a].name != states[b].name
    ensures DistinctKeys(Arming(times, states))
  {
    if times != [] {
      var n := |times| - 1;
      var front, row := Arming(times[..n], states), Row(times[n], states);
      ArmingDistinct(times[..n], states);
      var all := Arming(times, states);
      assert all == front + row;
      forall a, b | 0 <= a < b < |all|
        ensures (all[a].0.name, all[a].1) != (all[b].0.name, all[b].1)
      {
        if b < |front| {
          assert all[a] == front[a] && all[b] == front[b];
        } else if a < |front| {
          ArmingMember(times[..n], states, front[a]);
          var i, j :| 0 <= i < n && 0 <= j < |states| && front[a] == (states[j], times[..n][i]);
          assert all[a].1 == times[i] && all[b].1 == times[n];
        } else {
          assert all[a] == row[a - |front|] && all[b] == row[b - |front|];
        }
      }
    }
  }

  /** Walking fire events with distinct (name, target) pairs sends no
      reminder twice. */
  lemma {:induction false} DispatchedNoRepeats(fires: seq<Fire>, now: int)
    requires DistinctKeys(fires)
    ensures NoRepeats(Dispatched(fires, now))
  {
    if fires != [] {
      var n := |fires| - 1;
      var front := Dispatched(fires[..n], now);
      var last := SendFor(fires[n], now);
      assert DistinctKeys(fires[..n]) by {
        forall a, b | 0 <= a < b < n ensures (fires[..n][a].0.name, fires[..n][a].1) != (fires[..n][b].0.name, fires[..n][b].1) {
          assert fires[..n][a] == fires[a] && fires[..n][b] == fires[b];
        }
      }
      DispatchedNoRepeats(fires[..n], now);
      if |last| == 1 {
        DispatchedMember(fires[..n], now, last[0]);
        forall k | 0 <= k < n ensures last[0] != Send(fires[..n][k].0.name, fires[..n][k].1) {
          assert fires[..n][k] == fires[k];
        }
        assert last[0] !in front;
      }
      var all := Dispatched(fires, now);
      assert all == front + last;
      forall a, b | 0 <= a < b < |all| ensures all[a] != all[b] {
        if b < |front| {
          assert all[a] == front[a] && all[b] == front[b];
        } else {
          assert all[b] == last[0] && all[a] == front[a];
        }
      }
    }
  }

  /** At most one reminder per (time, channel) pair: when the times are
      distinct and the channel names are distinct, no reminder is sent twice
      in a cycle. With a duplicated id (`add_channel` does not check) each
      entry gets its own reminder. */
  lemma CycleAtMostOncePerPair(times: seq<int>, states: seq<ChannelState>, now: int)
    requires forall a, b :: 0 <= a < b < |times| ==> times[a] != times[b]
    requires forall a, b :: 0 <= a < b < |states| ==> states[a].name != states[b].name
    ensures forall a, b :: 0 <= a < b < |Cycle(times, states, now)| ==>
      Cycle(times, states, now)[a] != Cycle(times, states, now)[b]
  {
    ArmingDistinct(times, states);
    DispatchedNoRepeats(Arming(times, states), now);
  }

  /** When no time is in the past and no channel is done, the cycle sends one
      reminder per armed wait, in arming order (time-major by ArmingTimeMajor),
      so |times|·|states| reminders in all. */
  lemma CycleSendsAll(times: seq<int>, states: seq<ChannelState>, now: int)
    requires forall i :: 0 <= i < |times| ==> now <= times[i]
    requires forall j :: 0 <= j < |states| ==> !states[j].done
    ensures |Cycle(times, states, now)| == |Arming(times, states)| == |times| * |states|
    ensures forall k :: 0 <= k < |Arming(times, states)| ==>
      Cycle(times, states, now)[k] == Send(Arming(times, states)[k].0.name, Arming(times, states)[k].1)
  {
  }

  /** When every time is already past, the cycle sends nothing. */
  lemma CyclePastSendsNothing(times: seq<int>, states: seq<ChannelState>, now: int)
    requires forall i :: 0 <= i < |times| ==> times[i] < now
    ensures Cycle(times, states, now) == []
  {
    if Cycle(times, states, now) != [] {
      var s := Cycle(times, states, now)[0];
      CycleMember(times, states, now, s.channel, s.at);
    }
  }

  /** The end-of-cycle reset: every flag false, names and order kept. */
  function Reset(states: seq<ChannelState>): (r: seq<ChannelState>)
    ensures |r| == |states|
    ensures forall j :: 0 <= j < |r| ==> r[j].name == states[j].name && !r[j].done
  {
    seq(|states|, j requires 0 <= j < |states| => states[j].(done := false))
  }

  /** Resetting is idempotent, and a state with no flag set is already reset. */
  lemma ResetIdempotent(states: seq<ChannelState>)
    ensures Reset(Reset(states)) == Reset(states)
    ensures (forall j :: 0 <= j < |states| ==> !states[j].done) ==> Reset(states) == states
  {
  }
}
