# FirstJoinRTP core, modelled in Dafny

This project models the core of FirstJoinRTP, a game-server plugin. The first time a
player enters the configured target world, the plugin runs a short countdown. It then
teleports the player to a random safe spot inside a box around the world's spawn
column, and records that player and world so it never happens again.

Modelled:

- **Block rules and the search** (`teleport.dfy`, module `Teleport`):
  - which materials are standable ground (`IsSolid`);
  - the three-block safety predicate (`IsLocationSafe`);
  - the downward column scan (`FindHighestSafeBlock`);
  - the resample loop (`FindSafeLocation`);
  - the branch outcomes of the asynchronous teleport (`TeleportPlayer`).
- **The world** (`host.dfy`, module `Host`):
  - a world is a total map from block positions to materials, with a min/max height, a spawn column and a highest-block oracle;
  - a player is seen as a snapshot: id, online flag and current world.
- **The countdown table** (`countdown.dfy`, class `Countdown.CountdownManager`):
  - a map from player id to the session whose repeating task is scheduled;
  - the set of cancelled task ids, the log of teleports handed off, and the messages sent.
- **The teleport history** (`player_data.dfy`, class `PlayerData.PlayerDataManager`):
  - the in-memory map from player id to world names, and a count of file saves.
- **The event guards** (`listener.dfy`, class `Listener.WorldChangeListener`):
  - the world-change guard chain and the quit handler.
- **Messages** (`messages.dfy`, module `Messages`):
  - `String.replace`, `String.trim` and `String.valueOf(int)` as recursive functions;
  - `format` as a loop proved against them;
  - the blank-message guard of `sendMessage`;
  - an `Outbox` class that stands for the chat every player receives.
- **Support** (`java_int.dfy`, `settings.dfy`):
  - Java's 32-bit `int` arithmetic;
  - the configuration values, with the defaults ConfigManager gives (box ±1000, countdown 3, target world `world`, missing messages empty).
- **Client scenarios** (`scenarios.dfy`): the first-join run (entering the world and three ticks up to the hand-off), its completion (the hand-off, the found spot, the recorded world and a second entry that starts nothing) and the disconnect scenario, checked from the contracts alone.

## Where the code and its own comments disagree

- **Completion callback.** The comment in the completion callback (src/main/java/com/randomteleport/managers/CountdownManager.java:155) says a player is marked as teleported only after a successful teleportation. But `teleportPlayer` documents `onComplete` as running on "success or failure" (src/main/java/com/randomteleport/managers/TeleportManager.java:152), and it runs it on every path of lines 155-206:
  - the early return;
  - the not-online / other-world branch;
  - the failed-teleport `catch`;
  - the chunk-load failure path.

  The callback is what records the history. So the world is recorded for the player even when the player was not moved. The model follows the code: `Teleport.TeleportPlayer` ensures `completed` always, and `Countdown.CountdownManager.CompleteTeleport` marks the history whenever the search found a spot.
- **"Teleport failed" message.** The comment at src/main/java/com/randomteleport/managers/CountdownManager.java:142 says this branch should never happen. Indeed `findSafeLocation` returns null only for a null world, and the world passed there is never null, so the branch is dead. `CompleteTeleport` proves `!search.NoWorld?`.

## Model

| member | source | states |
|---|---|---|
| Teleport.IsSolid | src/main/java/com/randomteleport/managers/TeleportManager.java:216-222 | A material is standable ground exactly when it is one of the other physically solid materials. A standable material is neither air-class nor water nor lava. |
| Teleport.HazardCheckRedundant | src/main/java/com/randomteleport/managers/TeleportManager.java:113-132 | A spot that passed the two air tests and the solid-ground test has no water or lava at any of its three blocks. The fluid test therefore never rejects. |
| Teleport.IsLocationSafe | src/main/java/com/randomteleport/managers/TeleportManager.java:103-145 | False for a missing location or world. Otherwise true exactly when the block and the one above are air, the block below is standable, and y is at least the world minimum and at least 60. The fluid test is proved to decide nothing. |
| Teleport.FindHighestSafeBlock | src/main/java/com/randomteleport/managers/TeleportManager.java:69-95 | Nothing is returned iff no y from min(max(60, highestY), maxHeight-1) down to max(60, minHeight) has standable ground with two air blocks above. Otherwise it returns (x, y+1, z) for the highest such y. |
| Teleport.HighestStandableUnique | src/main/java/com/randomteleport/managers/TeleportManager.java:79-90 | The highest standable height of a column is unique, so the scan's result is determined by the column. |
| Teleport.CandidateIsSafe | src/main/java/com/randomteleport/managers/TeleportManager.java:53-56 | Every position the scan returns passes `isLocationSafe` on an unchanging world. The second gate never rejects. |
| Teleport.SampleInBox | src/main/java/com/randomteleport/managers/TeleportManager.java:49-50 | A sampled coordinate spawn + min + nextInt(max-min+1) lies in [spawn+min, spawn+max] when the region is ordered and nothing overflows 32 bits. |
| Teleport.FoundInBox | src/main/java/com/randomteleport/managers/TeleportManager.java:49-50 | A position the search finds lies within [spawn+min, spawn+max] on both axes when the region is ordered and nothing overflows 32 bits. |
| Teleport.FindSafeLocation | src/main/java/com/randomteleport/managers/TeleportManager.java:35-58 | Null world gives NoWorld. A non-positive 32-bit nextInt bound gives the exception. Otherwise it returns the highest safe spot of the first sampled column that has one, with earlier columns having none. The spot lies in the sampled column and satisfies `isLocationSafe`. |
| Teleport.TeleportPlayer | src/main/java/com/randomteleport/managers/TeleportManager.java:154-208 | `onComplete` runs on every path. The player is moved iff the early guard passes and, back on the main thread, the player is online, in the same world, and the teleport succeeds. |
| Teleport.ChunkLoadIrrelevant | src/main/java/com/randomteleport/managers/TeleportManager.java:170-206 | A failed chunk load gives the same outcome as a successful one: the best-effort fallback retries the same teleport. |
| Messages.Replace | src/main/java/com/randomteleport/utils/MessageHelper.java:36 | `String.replace` leaves a string shorter than the target unchanged. A replacement as long as the target keeps the length, and a shorter one never lengthens the string. |
| Messages.ReplaceAbsent | src/main/java/com/randomteleport/utils/MessageHelper.java:36 | `replace` returns a string with no occurrence of the target unchanged. |
| Messages.ReplaceBySelf | src/main/java/com/randomteleport/utils/MessageHelper.java:36 | Replacing a target by itself leaves every string unchanged. |
| Messages.Format | src/main/java/com/randomteleport/utils/MessageHelper.java:32-40 | The loop stepping two at a time computes the pairwise substitution `ApplyPairs`. With fewer than two arguments it returns the template itself. |
| Messages.TrailingKeyIgnored | src/main/java/com/randomteleport/utils/MessageHelper.java:35 | A trailing key without a value does not change the result. |
| Messages.ApplyPairsSequential | src/main/java/com/randomteleport/utils/MessageHelper.java:34-37 | Pairs are applied in order. Formatting with `first + rest` is formatting with `rest` the output of formatting with `first`. |
| Messages.ApplyPairsAbsent | src/main/java/com/randomteleport/utils/MessageHelper.java:32-40 | A template containing no `{key}` of any key is returned unchanged. |
| Messages.Trim | src/main/java/com/randomteleport/utils/MessageHelper.java:18 | `trim()` returns the slice of the string between a run of leading and a run of trailing characters at most U+0020. The slice starts and ends with a character above U+0020, and it is empty exactly when every character is at most U+0020. |
| Messages.ShouldSend | src/main/java/com/randomteleport/utils/MessageHelper.java:18-20 | A message is sent exactly when it is present and not blank. |
| Messages.Outbox.SendMessage | src/main/java/com/randomteleport/utils/MessageHelper.java:17-23 | Appends exactly one delivery of the message to that player, or nothing for a null or blank message. |
| Messages.IntToString | src/main/java/com/randomteleport/managers/CountdownManager.java:54 | `String.valueOf(int)` reads back as the same number. It starts with a minus sign iff the number is negative, the rest are decimal digits, and there is no leading zero. |
| PlayerData.MarkedMembers | src/main/java/com/randomteleport/managers/PlayerDataManager.java:89-92 | After marking, the world is in the list, and the list holds exactly the old worlds and the new one. |
| PlayerData.MarkedIdempotent | src/main/java/com/randomteleport/managers/PlayerDataManager.java:89-92 | Marking twice gives the same list as marking once. |
| PlayerData.MarkedKeepsOrder | src/main/java/com/randomteleport/managers/PlayerDataManager.java:89-92 | The old list is a prefix of the new one. At most one entry is added, and a new world goes at the end. |
| PlayerData.MarkedNoDuplicates | src/main/java/com/randomteleport/managers/PlayerDataManager.java:89-92 | Marking never introduces a duplicate into a duplicate-free list. |
| PlayerData.PlayerDataManager.constructor | src/main/java/com/randomteleport/managers/PlayerDataManager.java:21-41 | The store starts as the loaded contents, with no save done. |
| PlayerData.PlayerDataManager.WorldsOf | src/main/java/com/randomteleport/managers/PlayerDataManager.java:76 | `getStringList` gives the player's stored list, and the empty list for a player with no entry. |
| PlayerData.PlayerDataManager.HasPlayerBeenTeleported | src/main/java/com/randomteleport/managers/PlayerDataManager.java:75-78 | Holds iff the world appears at some index of the player's list. A missing player has the empty list. |
| PlayerData.PlayerDataManager.MarkPlayerTeleported | src/main/java/com/randomteleport/managers/PlayerDataManager.java:87-96 | The player's list becomes the marked list and the pair is then recorded. The store is untouched when the world was present. A save happens iff the list changed. Other players' lists and the player's other worlds are unchanged. |
| Countdown.StepAsWritten | src/main/java/com/randomteleport/managers/CountdownManager.java:63-84 | The tick as written: it stops iff the player is offline. For a counter above Integer.MIN_VALUE it continues iff the counter is at least 2, with a positive counter congruent to one less modulo 2^32. Integer.MIN_VALUE continues with Integer.MAX_VALUE. |
| Countdown.Step | src/main/java/com/randomteleport/managers/CountdownManager.java:63-85 | The corrected tick: it stops iff the player is offline. Online with a counter of at least 2, it continues with exactly the counter minus one. Online with a counter of 1 or less, it fires. |
| Countdown.MinValueCountdownWraps | src/main/java/com/randomteleport/managers/CountdownManager.java:71 | With remaining = Integer.MIN_VALUE the source's `remaining--` wraps to Integer.MAX_VALUE and the countdown continues. The corrected tick fires. |
| Countdown.StepAgreesAboveMin | src/main/java/com/randomteleport/managers/CountdownManager.java:71-84 | For every other 32-bit counter the source's tick and the corrected tick agree. |
| Countdown.CountdownSchedule | src/main/java/com/randomteleport/managers/CountdownManager.java:60-84 | A countdown of N ≥ 1 seconds emits remaining N-1, ..., 1 and fires on tick N. One of N ≤ 0 fires on the first tick. |
| Countdown.CountdownManager.constructor | src/main/java/com/randomteleport/managers/CountdownManager.java:25-32 | Starts with no sessions, no cancelled tasks and no teleports. |
| Countdown.CountdownManager.HasActiveCountdown | src/main/java/com/randomteleport/managers/CountdownManager.java:111-113 | A key lookup with no effect. |
| Countdown.CountdownManager.CancelCountdown | src/main/java/com/randomteleport/managers/CountdownManager.java:98-103 | Removes the player's key and cancels its task if present, and is a no-op otherwise. No other key or task changes. |
| Countdown.CountdownManager.StartCountdown | src/main/java/com/randomteleport/managers/CountdownManager.java:39-91 | A null or offline player changes nothing. Otherwise any previous task of the player is cancelled. The player then has exactly one session, on a fresh task, with remaining = countdown-seconds. The start message is sent, and other players' entries are unchanged. |
| Countdown.CountdownManager.Tick | src/main/java/com/randomteleport/managers/CountdownManager.java:63-85 | Offline: the session is removed and its task cancelled, with no message and no teleport. Online and counter still positive: the counter is decremented and the remaining message is sent with the new value. Otherwise: the session is removed and the teleport is started. |
| Countdown.CountdownManager.BeginTeleport | src/main/java/com/randomteleport/managers/CountdownManager.java:120-134 | Nothing happens for an offline player or one without a world. Otherwise the teleporting message is sent and one teleport request for the player's world is logged. |
| Countdown.CountdownManager.CompleteTeleport | src/main/java/com/randomteleport/managers/CountdownManager.java:138-161 | Runs only for a teleport `BeginTeleport` has handed off. The search never reports a null world. When it finds a spot, the teleport outcome is computed and the world is recorded in the player's history, whether or not the player was moved. Otherwise the history is untouched. |
| Countdown.CountdownManager.CancelAll | src/main/java/com/randomteleport/managers/CountdownManager.java:167-172 | Every session's task is cancelled and the table is left empty. |
| Listener.WorldChangeListener.constructor | src/main/java/com/randomteleport/listeners/WorldChangeListener.java:22-27 | The listener shares the countdown table's configuration and history store. |
| Listener.WorldChangeListener.OnPlayerChangedWorld | src/main/java/com/randomteleport/listeners/WorldChangeListener.java:34-69 | A null or offline player, a missing world, or a world other than the target changes nothing and sends nothing. An already-recorded player gets the already-teleported message and no countdown. A player already counting changes nothing. Otherwise a countdown starts, without cancelling any task: the replace path of `startCountdown` is never taken from here. |
| Listener.WorldChangeListener.OnPlayerQuit | src/main/java/com/randomteleport/listeners/WorldChangeListener.java:76-81 | The quitting player's countdown entry is removed and its task cancelled. Nothing else changes. |

## Findings

| source | as written | input that shows it | evidently intended | confidence | as-written member | corrected member |
|---|---|---|---|---|---|---|
| src/main/java/com/randomteleport/managers/CountdownManager.java:71 | `remaining--` on a 32-bit `int`, then `remaining > 0` | `countdown-seconds: -2147483648`: the first tick wraps the counter to 2147483647, and the countdown runs for about 68 years without teleporting | a countdown of zero or less teleports on the first tick, as it does for every other non-positive value | not executed | Countdown.MinValueCountdownWraps | Countdown.Step |

## Left out

- Threads, futures and the scheduler. The background search, the asynchronous chunk load and the rejoin to the main thread are not modelled. `BeginTeleport` is the main-thread part of the private `teleportPlayer`. `CompleteTeleport` is its background continuation, and a caller invokes it explicitly. The states of the player and the world seen on the main thread are the `Rejoin` parameter.
- Bukkit timers and real time: a tick is an explicit call of `Tick`. A task id stands for a `BukkitTask` handle. Only the session currently in the table ever ticks, because a cancelled task never runs again.
- `java.util.Random`: the draws are a supplied sequence of pairs, each in [0, bound).
- `Material.isSolid()`, block lookup and `getHighestBlockYAt`: these are `PhysicallySolid` over an abstract set of materials, and the world's `blockAt` and `highestY` functions.
- Floating-point coordinates: the model uses block coordinates, so the `+ 0.5` centring of the returned location is dropped.
- Integer width of heights: heights, `y + 1`, `y + 2` and `maxHeight - 1` are unbounded integers, because world heights are far from the 32-bit limits. The sampled coordinates and the `nextInt` bound are 32-bit.
- The YAML file: loading, saving, the five-minute autosave and `shutdown` are I/O. The model keeps only the in-memory lists and a count of saves.
- ConfigManager and `reload`: configuration values are the fixed `Config` value.
- RandomTeleportPlugin lifecycle wiring, and the logging calls.
- `ChatColor.translateAlternateColorCodes`: deliveries hold the untranslated text.
- The "teleport failed" branch of the private `teleportPlayer` (CountdownManager.java:141-151): it is unreachable, as shown by `CompleteTeleport`'s contract, so it is not modelled.
- Teleport.FindSafeLocation: it does not promise to return a location. With finitely many draws it may return `Exhausted`, where the source keeps sampling forever.
- Countdown.CountdownManager.Tick: it models the corrected tick `Step`, not the wrapping `remaining--` (see Findings).
