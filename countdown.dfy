/**
 * CountdownManager: the table of active countdowns, one per player, the
 * one-second tick of a countdown, and the hand-off to the teleport.
 */
module Countdown {
  import opened Wrappers
  import opened JavaInt
  import opened Host
  import opened Settings
  import opened Messages
  import opened Teleport
  import opened PlayerData

  // ---------------------------------------------------------------------
  // One tick of a countdown

  /** What one tick does: stop (player gone), keep counting, or fire the teleport. */
  datatype StepResult = Stop | Continue(remaining: int) | Fire

  /** The tick as the source writes it: `remaining--` on a 32-bit `int`. */
  function StepAsWritten(remaining: int32, online: bool): (r: StepResult)
    ensures !online <==> r.Stop?
    ensures r.Continue? ==> IsInt32(r.remaining) && r.remaining > 0 && (r.remaining - (remaining - 1)) % 0x1_0000_0000 == 0
    ensures online && remaining > IntMin ==> (r.Continue? <==> remaining >= 2)
    ensures online && remaining == IntMin ==> r == Continue(IntMax)
  {
    if !online then Stop
    else
      var next := Wrap32(remaining - 1);
      if next > 0 then Continue(next) else Fire
  }

  /**
   * The tick as intended: the counter is decremented without wrapping, so a
   * countdown of zero or less fires on the first tick.
   */
  function Step(remaining: int, online: bool): (r: StepResult)
    ensures !online <==> r.Stop?
    ensures r.Continue? ==> r.remaining == remaining - 1 && r.remaining > 0
    ensures online && remaining >= 2 ==> r == Continue(remaining - 1)
    ensures online && remaining <= 1 ==> r.Fire?
  {
    if !online then Stop
    else if remaining - 1 > 0 then Continue(remaining - 1)
    else Fire
  }

  /** With a countdown of Integer.MIN_VALUE the decrement wraps and the teleport does not fire. */
  lemma MinValueCountdownWraps()
    ensures StepAsWritten(IntMin, true) == Continue(IntMax)
    ensures Step(IntMin, true) == Fire
  {
  }

  /** Everywhere else the source's tick and the corrected tick agree. */
  lemma StepAgreesAboveMin(remaining: int32, online: bool)
    requires remaining > IntMin
    ensures StepAsWritten(remaining, online) == Step(remaining, online)
  {
    assert IsInt32(remaining - 1);
  }

  /** The observable effect of one tick of an online countdown. */
  datatype TickEvent = RemainingEvent(seconds: int) | TeleportEvent

  /** The events of `ticks` successive ticks while the player stays online. */
  function OnlineTrace(remaining: int, ticks: nat): seq<TickEvent>
    decreases ticks
  {
    if ticks == 0 then []
    else match Step(remaining, true)
      case Continue(k) => [RemainingEvent(k)] + OnlineTrace(k, ticks - 1)
      case _ => [TeleportEvent]
  }

  /** Messages for n-1 down to 1, then the teleport. */
  function ExpectedTrace(n: int): seq<TickEvent> {
    seq(Max(n - 1, 0), i => RemainingEvent(n - 1 - i)) + [TeleportEvent]
  }

  /**
   * A countdown of n >= 1 seconds emits n-1, ..., 1 and fires on tick n;
   * one of n <= 0 fires on the first tick.
   */
  lemma {:induction false} CountdownSchedule(n: int)
    ensures OnlineTrace(n, Max(n, 1)) == ExpectedTrace(n)
    decreases Max(n, 1)
  {
    if n >= 2 {
      CountdownSchedule(n - 1);
      assert OnlineTrace(n, n) == [RemainingEvent(n - 1)] + OnlineTrace(n - 1, n - 1);
      assert ExpectedTrace(n) == [RemainingEvent(n - 1)] + ExpectedTrace(n - 1);
    }
  }

  // ---------------------------------------------------------------------
  // The messages a countdown sends

  function StartNotice(cfg: Config, p: PlayerId): seq<Delivery> {
    var template := cfg.Message("countdown-start");
    if template == "" then []
    else Deliveries(p, Some(ApplyPairs(template, ["seconds", IntToString(cfg.countdownSeconds)])))
  }

  function RemainingNotice(cfg: Config, p: PlayerId, seconds: int): seq<Delivery> {
    var template := cfg.Message("countdown-remaining");
    if template == "" then []
    else Deliveries(p, Some(ApplyPairs(template, ["seconds", IntToString(seconds)])))
  }

  function TeleportingNotice(cfg: Config, p: PlayerId): seq<Delivery> {
    var template := cfg.Message("teleporting");
    if template == "" then [] else Deliveries(p, Some(template))
  }

  // ---------------------------------------------------------------------
  // The countdown table

  /** A scheduled countdown: the id of its repeating task and its counter. */
  datatype Session = Session(task: nat, remaining: int)

  /** A teleport handed to the background search: the player and the world it searches. */
  datatype Request = Request(player: PlayerId, worldName: string)

  class CountdownManager {
    const config: Config
    const outbox: Outbox
    const data: PlayerDataManager

    /** `activeCountdowns`: for each player, the session whose task is scheduled. */
    var active: map<PlayerId, Session>
    /** The ids of the tasks cancelled so far. */
    var cancelled: set<nat>
    /** The id the next scheduled task gets. */
    var nextTask: nat
    /** The teleports started, in order. */
    var requests: seq<Request>

    /** Every session's task is live and its own; cancelled tasks were scheduled before. */
    ghost predicate Valid()
      reads this
    {
      && (forall p :: p in active ==> active[p].task < nextTask && active[p].task !in cancelled)
      && (forall p, q :: p in active && q in active && p != q ==> active[p].task != active[q].task)
      && (forall t :: t in cancelled ==> t < nextTask)
    }

    constructor (config: Config, outbox: Outbox, data: PlayerDataManager)
      ensures Valid()
      ensures this.config == config && this.outbox == outbox && this.data == data
      ensures active == map[] && cancelled == {} && nextTask == 0 && requests == []
    {
      this.config := config;
      this.outbox := outbox;
      this.data := data;
      active := map[];
      cancelled := {};
      nextTask := 0;
      requests := [];
    }

    /** hasActiveCountdown */
    function HasActiveCountdown(p: PlayerId): (b: bool)
      reads this
      ensures b <==> p in active
    {
      p in active
    }

    /** cancelCountdown: remove the player's session and cancel its task, if any. */
    method CancelCountdown(p: PlayerId)
      requires Valid()
      modifies this
      ensures Valid()
      ensures active == old(active) - {p}
      ensures cancelled == old(cancelled) + if p in old(active) then {old(active)[p].task} else {}
      ensures nextTask == old(nextTask) && requests == old(requests)
    {
      if p in active {
        cancelled := cancelled + {active[p].task};
        active := active - {p};
      }
    }

    /** startCountdown: replace any session of the player by a fresh one. */
    method StartCountdown(player: Option<PlayerRef>)
      requires Valid()
      modifies this, outbox
      ensures Valid()
      ensures player.None? || !player.value.online ==>
        && active == old(active) && cancelled == old(cancelled) && nextTask == old(nextTask)
        && requests == old(requests) && outbox.sent == old(outbox.sent)
      ensures player.Some? && player.value.online ==>
        var p := player.value.id;
        && active == old(active)[p := Session(old(nextTask), config.countdownSeconds)]
        && cancelled == old(cancelled) + (if p in old(active) then {old(active)[p].task} else {})
        && nextTask == old(nextTask) + 1
        && requests == old(requests)
        && outbox.sent == old(outbox.sent) + StartNotice(config, p)
    {
      if player.None? || !player.value.online {
        return;
      }
      var p := player.value.id;
      CancelCountdown(p);
      var seconds := config.countdownSeconds;
      var startMessage := config.Message("countdown-start");
      if startMessage != "" {
        var formatted := Format(startMessage, ["seconds", IntToString(seconds)]);
        outbox.SendMessage(p, Some(formatted));
      }
      active := active[p := Session(nextTask, seconds)];
      nextTask := nextTask + 1;
    }

    /**
     * One run of the player's repeating task. `current` is what the server
     * returns for the player's id at that moment.
     */
    method Tick(p: PlayerId, current: Option<PlayerRef>)
      requires Valid() && p in active
      requires current.Some? ==> current.value.id == p
      modifies this, outbox
      ensures Valid() && nextTask == old(nextTask)
      ensures
        var s := old(active)[p];
        var step := Step(s.remaining, current.Some? && current.value.online);
        && (step.Stop? ==>
              && active == old(active) - {p} && cancelled == old(cancelled) + {s.task}
              && outbox.sent == old(outbox.sent) && requests == old(requests))
        && (step.Continue? ==>
              && active == old(active)[p := Session(s.task, step.remaining)] && cancelled == old(cancelled)
              && outbox.sent == old(outbox.sent) + RemainingNotice(config, p, step.remaining)
              && requests == old(requests))
        && (step.Fire? ==>
              && active == old(active) - {p} && cancelled == old(cancelled) + {s.task}
              && (current.value.world.None? ==> outbox.sent == old(outbox.sent) && requests == old(requests))
              && (current.value.world.Some? ==>
                    && outbox.sent == old(outbox.sent) + TeleportingNotice(config, p)
                    && requests == old(requests) + [Request(p, current.value.world.value.name)]))
    {
      if current.None? || !current.value.online {
        CancelCountdown(p);
        return;
      }
      var s := active[p];
      var remaining := s.remaining - 1;
      active := active[p := Session(s.task, remaining)];
      if remaining > 0 {
        var message := config.Message("countdown-remaining");
        if message != "" {
          var formatted := Format(message, ["seconds", IntToString(remaining)]);
          outbox.SendMessage(p, Some(formatted));
        }
      } else {
        CancelCountdown(p);
        BeginTeleport(current.value);
      }
    }

    /**
     * The main-thread part of the private `teleportPlayer`: the player must be
     * online and in a world; the message is sent and the search is handed off.
     */
    method BeginTeleport(player: PlayerRef)
      modifies this`requests, outbox
      ensures !player.online || player.world.None? ==>
        outbox.sent == old(outbox.sent) && requests == old(requests)
      ensures player.online && player.world.Some? ==>
        && outbox.sent == old(outbox.sent) + TeleportingNotice(config, player.id)
        && requests == old(requests) + [Request(player.id, player.world.value.name)]
    {
      if !player.online {
        return;
      }
      if player.world.None? {
        return;
      }
      var teleportingMessage := config.Message("teleporting");
      if teleportingMessage != "" {
        outbox.SendMessage(player.id, Some(teleportingMessage));
      }
      requests := requests + [Request(player.id, player.world.value.name)];
    }

    /**
     * The background part of the private `teleportPlayer`: search the
     * captured world, teleport, and record the world in the player's history
     * from the completion callback.
     */
    method CompleteTeleport(player: PlayerRef, world: World, rolls: seq<(int, int)>, rejoin: Rejoin)
      returns (search: Search, result: Option<TeleportResult>)
      requires Request(player.id, world.name) in requests
      requires RollsInRange(rolls, config.SearchRegion())
      modifies data
      ensures SearchSpec(Some(world), config.SearchRegion(), rolls, search) && !search.NoWorld?
      ensures search.Found? ==>
        && result == Some(TeleportPlayer(Some(player), Some(Location(Some(world), search.pos)), rejoin))
        && data.WorldsOf(player.id) == Marked(old(data.WorldsOf(player.id)), world.name)
        && data.HasPlayerBeenTeleported(player.id, world.name)
        && data.saves == old(data.saves) + (if world.name in old(data.WorldsOf(player.id)) then 0 else 1)
        && (forall q :: q != player.id ==> data.WorldsOf(q) == old(data.WorldsOf(q)))
      ensures !search.Found? ==> result.None? && data.worlds == old(data.worlds) && data.saves == old(data.saves)
    {
      search := FindSafeLocation(Some(world), config.SearchRegion(), rolls);
      if search.Found? {
        var outcome := TeleportPlayer(Some(player), Some(Location(Some(world), search.pos)), rejoin);
        result := Some(outcome);
        if outcome.completed {
          data.MarkPlayerTeleported(player.id, world.name);
        }
      } else {
        result := None;
      }
    }

    /** cancelAll: cancel every session's task, then empty the table. */
    method CancelAll()
      requires Valid()
      modifies this
      ensures Valid()
      ensures active == map[]
      ensures cancelled == old(cancelled) + set p | p in old(active) :: old(active)[p].task
      ensures nextTask == old(nextTask) && requests == old(requests)
    {
      var pending := active.Keys;
      while pending != {}
        invariant pending <= active.Keys
        invariant active == old(active) && nextTask == old(nextTask) && requests == old(requests)
        invariant cancelled == old(cancelled) + set p | p in active.Keys - pending :: active[p].task
        invariant forall t :: t in cancelled ==> t < nextTask
        decreases pending
      {
        var p :| p in pending;
        cancelled := cancelled + {active[p].task};
        pending := pending - {p};
      }
      active := map[];
    }
  }
}
