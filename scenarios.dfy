/**
 * Clients of the model: the first-join and disconnect scenarios, checked
 * against the contracts alone.
 */
module Scenarios {
  import opened Wrappers
  import opened Host
  import opened Settings
  import opened Messages
  import opened Teleport
  import opened PlayerData
  import opened Countdown
  import opened Listener

  /** A flat world: solid ground up to height 63, air above. */
  function FlatWorld(): World {
    World("world", -64, 320, 0, 0, (x: int, z: int) => 64, (p: Pos) => if p.y <= 63 then Other(1, true) else Air)
  }

  /** A player enters the target world, counts down 3, 2, 1, and the teleport is handed off. */
  method FirstJoinScenario() {
    var cfg := Defaults;
    var outbox := new Outbox();
    var data := new PlayerDataManager(map[]);
    var countdown := new CountdownManager(cfg, outbox, data);
    var listener := new WorldChangeListener(cfg, data, countdown);
    var world := FlatWorld();
    var player := PlayerRef(7, true, Some(world));

    listener.OnPlayerChangedWorld(Some(player));
    assert countdown.active[7].remaining == 3;
    countdown.Tick(7, Some(player));
    assert countdown.active[7].remaining == 2;
    countdown.Tick(7, Some(player));
    assert countdown.active[7].remaining == 1;
    countdown.Tick(7, Some(player));
    assert 7 !in countdown.active;
    assert countdown.requests == [Request(7, "world")];
  }

  /**
   * The handed-off teleport finds the flat ground at the sampled column and
   * records the world; entering the world again starts no countdown.
   */
  method CompletionScenario() {
    var cfg := Defaults;
    var outbox := new Outbox();
    var data := new PlayerDataManager(map[]);
    var countdown := new CountdownManager(cfg, outbox, data);
    var listener := new WorldChangeListener(cfg, data, countdown);
    var world := FlatWorld();
    var player := PlayerRef(7, true, Some(world));

    // the hand-off the last tick of the countdown makes
    countdown.BeginTeleport(player);
    assert countdown.requests == [Request(7, "world")];

    var region := cfg.SearchRegion();
    assert SampleBound(region.minX, region.maxX) == 2001 && SampleBound(region.minZ, region.maxZ) == 2001;
    assert SampledX(world, region, (1000, 1000)) == 0 && SampledZ(world, region, (1000, 1000)) == 0;
    assert ScanFloor(world) == 60 && ScanStart(world, 0, 0) == 64;
    assert Standable(world, 0, 63, 0) && !Standable(world, 0, 64, 0);
    assert HighestStandable(world, 0, 63, 0) && !NoStandable(world, 0, 0);
    var rolls := [(1000, 1000)];
    assert rolls[0] == (1000, 1000);
    var search, result := countdown.CompleteTeleport(player, world, rolls, Rejoin(true, true, true, true));
    assert search.Found?;
    HighestStandableUnique(world, 0, 0, search.pos.y - 1, 63);
    assert search.pos == Pos(0, 64, 0);
    assert result == Some(TeleportResult(true, true));
    assert data.HasPlayerBeenTeleported(7, "world");

    listener.OnPlayerChangedWorld(Some(player));
    assert 7 !in countdown.active && countdown.requests == [Request(7, "world")];
  }

  /** A player who disconnects mid-countdown loses the session and is never teleported. */
  method DisconnectScenario() {
    var cfg := Defaults;
    var outbox := new Outbox();
    var data := new PlayerDataManager(map[]);
    var countdown := new CountdownManager(cfg, outbox, data);
    var listener := new WorldChangeListener(cfg, data, countdown);
    var player := PlayerRef(8, true, Some(FlatWorld()));

    listener.OnPlayerChangedWorld(Some(player));
    countdown.Tick(8, Some(player));
    assert countdown.active[8].remaining == 2;
    // the server no longer finds the player at the next tick
    countdown.Tick(8, None);
    assert 8 !in countdown.active;
    assert countdown.requests == [];
    listener.OnPlayerQuit(Some(player.(online := false)));
    assert 8 !in countdown.active && countdown.requests == [];
  }
}
