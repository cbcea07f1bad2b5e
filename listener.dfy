/**
 * WorldChangeListener: the guard chain run when a player changes world, and
 * the quit handler.
 */
module Listener {
  import opened Wrappers
  import opened Host
  import opened Settings
  import opened Messages
  import opened PlayerData
  import opened Countdown

  /** The player is online, in a world, and that world is the target world. */
  predicate EntersTarget(player: Option<PlayerRef>, target: string) {
    && player.Some? && player.value.online
    && player.value.world.Some? && player.value.world.value.name == target
  }

  function AlreadyTeleportedNotice(cfg: Config, p: PlayerId): seq<Delivery> {
    var template := cfg.Message("already-teleported");
    if template == "" then [] else Deliveries(p, Some(template))
  }

  class WorldChangeListener {
    const config: Config
    const data: PlayerDataManager
    const countdown: CountdownManager

    /** The listener and the countdown table share one configuration and one history store. */
    ghost predicate Valid()
      reads this, countdown
    {
      countdown.Valid() && countdown.config == config && countdown.data == data
    }

    constructor (config: Config, data: PlayerDataManager, countdown: CountdownManager)
      requires countdown.Valid() && countdown.config == config && countdown.data == data
      ensures Valid()
      ensures this.config == config && this.data == data && this.countdown == countdown
    {
      this.config := config;
      this.data := data;
      this.countdown := countdown;
    }

    /** onPlayerChangedWorld */
    method OnPlayerChangedWorld(player: Option<PlayerRef>)
      requires Valid()
      modifies countdown, countdown.outbox
      ensures Valid()
      ensures !EntersTarget(player, config.targetWorld) ==>
        unchanged(countdown) && countdown.outbox.sent == old(countdown.outbox.sent)
      ensures EntersTarget(player, config.targetWorld) && old(data.HasPlayerBeenTeleported(player.value.id, config.targetWorld)) ==>
        && unchanged(countdown)
        && countdown.outbox.sent == old(countdown.outbox.sent) + AlreadyTeleportedNotice(config, player.value.id)
      ensures EntersTarget(player, config.targetWorld) && !old(data.HasPlayerBeenTeleported(player.value.id, config.targetWorld))
              && old(countdown.HasActiveCountdown(player.value.id)) ==>
        unchanged(countdown) && countdown.outbox.sent == old(countdown.outbox.sent)
      ensures EntersTarget(player, config.targetWorld) && !old(data.HasPlayerBeenTeleported(player.value.id, config.targetWorld))
              && !old(countdown.HasActiveCountdown(player.value.id)) ==>
        var p := player.value.id;
        && countdown.active == old(countdown.active)[p := Session(old(countdown.nextTask), config.countdownSeconds)]
        && countdown.cancelled == old(countdown.cancelled)
        && countdown.nextTask == old(countdown.nextTask) + 1
        && countdown.requests == old(countdown.requests)
        && countdown.outbox.sent == old(countdown.outbox.sent) + StartNotice(config, p)
    {
      if player.None? || !player.value.online {
        return;
      }
      var newWorld := player.value.world;
      if newWorld.None? {
        return;
      }
      var targetWorld := config.targetWorld;
      var currentWorldName := newWorld.value.name;
      if currentWorldName != targetWorld {
        return;
      }
      var id := player.value.id;
      if data.HasPlayerBeenTeleported(id, currentWorldName) {
        var alreadyTeleportedMessage := config.Message("already-teleported");
        if alreadyTeleportedMessage != "" {
          countdown.outbox.SendMessage(id, Some(alreadyTeleportedMessage));
        }
        return;
      }
      if countdown.HasActiveCountdown(id) {
        return;
      }
      countdown.StartCountdown(player);
    }

    /** onPlayerQuit */
    method OnPlayerQuit(player: Option<PlayerRef>)
      requires Valid()
      modifies countdown
      ensures Valid()
      ensures player.None? ==> unchanged(countdown)
      ensures player.Some? ==>
        var p := player.value.id;
        && countdown.active == old(countdown.active) - {p}
        && countdown.cancelled == old(countdown.cancelled) + (if p in old(countdown.active) then {old(countdown.active)[p].task} else {})
        && countdown.nextTask == old(countdown.nextTask) && countdown.requests == old(countdown.requests)
    {
      if player.Some? {
        countdown.CancelCountdown(player.value.id);
      }
    }
  }
}
