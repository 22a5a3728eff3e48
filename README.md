# timecard-police reminder scheduler, modelled in Dafny

The bot keeps an in-memory `Scheduler` that owns a list of `Channel` records.
Each record has a name (the chat channel id) and a `timecard_done` flag. One
turn of the scheduler's `main` loop is a day cycle:

1. regenerate the list of target instants (`_gen_time_list(2)`);
2. arm one wait for every (time, channel) pair, time-major;
3. run every wait (`send_at`): skip an instant already past; otherwise, after
   waiting for it, send a reminder when the channel is not done;
4. reset every channel's flag to false.

Around this loop sit small time helpers: `today_at`, `et_to_utc` and
`_gen_time_list`.

The model has three modules:

- `Timestamps` (`timestamps.dfy`) holds the time helpers. An instant is an
  integer count of seconds since the Unix epoch on the UTC clock, and a day
  is 86400 seconds. The wall clock is a parameter: `clock(i)` is the i-th
  reading taken by `_gen_time_list`. `today_at`'s `ValueError` on
  out-of-range fields is the `None` result.
- `DayCycle` (`day_cycle.dfy`) gives the value-level meaning of a cycle:
  - `Arming(times, cs)` is the time-major list of waits;
  - `SendDecision` is the per-wait decision;
  - `Dispatched` and `Cycle` are the reminders one cycle sends;
  - `Reset` is the end-of-cycle reset.
- `Schedule` (`schedule.dfy`) holds the objects. `Channel` is a class with a
  constant `name` and a mutable `timecardDone`. `Scheduler` is a class with
  the fields `channels`, `times` and `tasks`:
  - `AddChannel` reassigns `channels`;
  - `Arm` reassigns `tasks`;
  - `RunCycle` reassigns `times` and `tasks`;
  - `ResetAll` clears every channel object's flag in place and leaves the
    `Scheduler` fields alone;
  - `Gather` only reads.

  Each task holds a reference to its channel object, as the Python task
  does, so `send_at` reads the channel's live flag.

The asyncio waits become a sequential walk over the armed tasks. Every task
computes `sleep_for` against one start reading `now`, and its wait is the
clock reaching the target. A sent reminder is recorded as
`Send(channel name, target instant)`. This stands in for `send_message`,
which only logs.

Nothing in `scheduler.py` ever sets `timecard_done` to true. The constructor
and `add_channel` create channels that are not done, and the cycle only
resets flags. `AllPending` is therefore kept by every operation. By
`PromptCycleSendsAll`, a cycle whose waits start within the first five
seconds reminds every channel at both generated instants.

## Model

| member | source | states |
|---|---|---|
| `Schedule.Channel.constructor` | scheduler.py:17-20 | a new channel's name is the given id and its time card is not done |
| `Schedule.Scheduler.constructor` | scheduler.py:32-35 | no channels and no tasks; the time list is `_gen_time_list(2)` of the clock readings |
| `Schedule.Scheduler.AddChannel` | scheduler.py:53-54 | the channel list grows by exactly one fresh channel, appended at the end with the given id and not done; the earlier entries, the times and the tasks are unchanged; there is no duplicate check, so an existing id gives a second entry; whether all channels are pending is unchanged |
| `Schedule.Scheduler.Arm` | scheduler.py:41-44 | the task list becomes exactly the time-major arming of the current times over the current channels |
| `DayCycle.ArmingLength` | scheduler.py:41-44 | arming creates exactly \|times\|·\|channels\| waits |
| `DayCycle.ArmingTimeMajor` | scheduler.py:41-44 | the wait at position i·\|channels\| + j is for channel j and time i: for each time in order, every channel in list order |
| `DayCycle.ArmingMember` | scheduler.py:41-44 | a wait is armed for a (channel, time) pair if and only if the time is listed and the channel is listed |
| `DayCycle.SendDecision` | scheduler.py:58-63 | a target strictly earlier than now sends nothing; a target at or after now (including exactly now) sends if and only if the channel is not done |
| `DayCycle.SendFor` | scheduler.py:57-63 | one wait sends at most one reminder, exactly when its decision says so, and that reminder names the channel and the target |
| `Schedule.SendAt` | scheduler.py:57-63 | `send_at` on a channel object sends what `SendFor` gives for the channel's state when it wakes |
| `Schedule.ArmingStates` | scheduler.py:41-44 | arming over channel objects, read through their states, is arming over the channels' states: a task sees its channel's live flag |
| `Schedule.Scheduler.Gather` | scheduler.py:46 | running all armed tasks sends exactly `Cycle(times, channel states, now)`, in arming order |
| `DayCycle.DispatchedMember` | scheduler.py:46 | a reminder is sent if and only if some walked wait decides to send it |
| `DayCycle.DispatchedCount` | scheduler.py:46 | no more reminders than waits; exactly as many if and only if every wait decides to send, and then reminder k is for wait k |
| `DayCycle.CycleMember` | scheduler.py:41-46 | a cycle sends `n` a reminder for `t` if and only if `t` is a listed time not before now and some listed channel named `n` is not done |
| `DayCycle.CycleBound` | scheduler.py:41-46 | no more than \|times\|·\|channels\| in all |
| `DayCycle.ArmingDistinct` | scheduler.py:41-44 | with distinct times and distinct channel names, no two armed waits are for the same (name, time) pair |
| `DayCycle.DispatchedNoRepeats` | scheduler.py:46 | walking waits with distinct (name, time) pairs sends no reminder twice |
| `DayCycle.CycleAtMostOncePerPair` | scheduler.py:41-46 | at most one reminder per (time, channel) pair in a cycle: with distinct times and distinct names, no reminder is sent twice (each wait's own bound of one is `SendFor`'s) |
| `DayCycle.CycleSendsAll` | scheduler.py:41-46 | with no past time and no done channel, the cycle sends one reminder per armed wait, in arming order, \|times\|·\|channels\| in all |
| `DayCycle.CyclePastSendsNothing` | scheduler.py:58-60 | when every time is already past, the cycle sends nothing |
| `Schedule.PromptCycleSendsAll` | scheduler.py:40-46 | waits that start within 5 seconds of the first clock reading, over channels none of which is done, remind every channel at both generated instants, time-major |
| `DayCycle.Reset` | scheduler.py:48-49 | the reset keeps the length, order and names, and clears every flag |
| `DayCycle.ResetIdempotent` | scheduler.py:48-49 | resetting twice equals resetting once, and an all-pending list is already reset |
| `Schedule.Scheduler.ResetAll` | scheduler.py:48-49 | in place, every channel's flag becomes false; the list, its order and the names are unchanged |
| `Schedule.Scheduler.RunCycle` | scheduler.py:39-51 | one loop turn: the list of channel objects is unchanged; the times are a fresh two-entry time list; the tasks are its arming; the reminders sent are `Cycle` of the pre-cycle states; afterwards every flag is false |
| `Timestamps.MidnightOf` | scheduler.py:67-68 | the midnight of an instant's UTC day is at or before it, less than a day before, and a whole number of days from the epoch |
| `Timestamps.ClockOf` | scheduler.py:68 | the wall-clock fields of any instant are a valid hour, minute and second |
| `Timestamps.TodayAt` | scheduler.py:66-68 | a result exists if and only if hour is in 0..23 and minute and second are in 0..59 (otherwise `datetime` raises); the result lies within the day of `now` |
| `Timestamps.ClockFieldsRoundTrip` | scheduler.py:68 | 3600·h + 60·m + s is below one day and splits back into h, m and s |
| `Timestamps.TodayAtFields` | scheduler.py:66-68 | `today_at(h, m, s)` is on the same day as `now` and reads h:m:s on the wall clock, so it equals midnight + 3600·h + 60·m + s |
| `Timestamps.TodayAtOfClock` | scheduler.py:66-68 | every instant is `today_at` of its own wall-clock fields, taken on its own day |
| `Timestamps.EtToUtcShift` | scheduler.py:71-72 | `EtToUtc` adds exactly 14400 seconds; it keeps order strictly, keeps differences, and is injective |
| `Timestamps.GenTimeList` | scheduler.py:75-79 | exactly `count` instants (none for a negative count); entry i is clock reading i plus 5·(i+1) seconds |
| `Timestamps.TimeListIncreasing` | scheduler.py:75-79 | for a clock that never runs backwards, the list is strictly increasing and each entry is after its reading |

## Left out

- `app.py` is not part of this model. It holds the chat handlers, the socket-mode bootstrap, the YAML schedule file and the `chat_postMessage` calls, all of which are I/O.
- The asyncio machinery is not modelled: `create_task`, `gather`, `sleep` and the endless `while True`. One loop turn is `RunCycle`, and the closing five-second sleep is the gap before the caller's next turn.
- Schedule.Scheduler.Gather: every task reads the same start instant `now`, whereas each real task reads the clock itself a moment apart.
- Schedule.Scheduler.Gather: reminders are listed in arming order. The real wake order is by target instant. The two orders agree when the times strictly increase, which `TimeListIncreasing` proves for a clock that never runs backwards. The order among equal targets is left to asyncio.
- Schedule.Scheduler.Gather: code outside `scheduler.py` could change a channel's flag or add a channel while waits are pending. The model does not capture such interleaving: within a modelled cycle, nothing runs between arming and the reset.
- Instants are unbounded integers. Python's `datetime` stops at year 9999, and past that `et_date + timedelta(hours=4)` and `utcnow() + timedelta(seconds=...)` raise `OverflowError`; `EtToUtc` and `GenTimeList` always return a value. The scheduler never comes near that bound.
- Instants are whole seconds. `datetime`'s microseconds are not modelled, and neither is the local-time reading that `.timestamp()` gives a naive `datetime` around daylight-saving changes.
- Timestamps.TodayAt: the default `seconds=0` is not modelled as a default; callers pass 0 explicitly.
- `utcnow()` can run backwards if the system clock is set back. The ordering lemmas therefore take a non-decreasing clock as a hypothesis.
- The `client` fields of `Channel` and `Scheduler` carry no logic and are left out.
- Logging is left out; `send_message` is the recorded `Send`.
- The `__main__` demo is left out.
- `Scheduler.tasks` is not set by the Python `__init__`; the model starts it as the empty list.
