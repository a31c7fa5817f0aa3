# Roguelike turn engine, modelled in Dafny

This project models the sequential core of a grid-based roguelike. The core has four parts:

- **Room** (`core/Room.java`): one turn of a mob inside a room. `makeMove` finds the first object on the target cell. A door reports the room it leads to. An item is removed from the room. The mob moves only if the target cell lies strictly inside the room's one-cell border. The matched object's `stepOn` hook is then called. The room also has its visibility flag and getters.
- **MapRepository** (`repositories/MapRepository.java`): builds levels, rooms and objects from the decoded map configuration. It dispatches on each object's `type` tag and fails on an unknown tag. It caches the first successful result.
- **GameStateChanger** (`lib/GameStateChanger.java`): the table that maps each input event to the one operation it triggers.
- **Inventory** (`models/Inventory.java`): the item list. It is created empty, once, and only ever appended to.

Everything is a pure function over immutable datatypes:

- `makeMove` returns a `Turn` value. It holds the room with its new object list, the mob's new position, the returned room id (`-1` to stay) and the `stepOn` call, if any.
- The loader returns a `Result`.
- The dispatcher returns an `Action` value that names the GameState or Inventory operation it would call.

Files:

| file | module | models |
|---|---|---|
| `wrappers.dfy` | `Wrappers` | `Option`, `Result`, and an in-order traversal that stops at the first failure |
| `models.dfy` | `Models` | positions, the `Door`/`Item`/`Mob` objects, the player |
| `rooms.dfy` | `Rooms` | `Room.java` and the `Level` it belongs to |
| `rooms_lemmas.dfy` | `RoomLemmas` | properties relating moves to each other and to the room |
| `map_repository.dfy` | `MapRepository` | the loader and its cache |
| `map_repository_lemmas.dfy` | `MapRepositoryLemmas` | the loader against an inverse (world → configuration) |
| `game_state_changer.dfy` | `GameStateChanger` | the event table |
| `inventory.dfy` | `Inventories` | the inventory and its singleton holder |

Two inconsistencies in the sources are settled as follows:

- **Room size.** The four-argument `Room` constructor takes no size and hard-codes 10 (`core/Room.java:19-25`). `MapRepository` passes a fifth `size` argument (`repositories/MapRepository.java:42-48`). In the model, `Room` has an immutable `size` field. `Rooms.NewRoom` is the four-argument constructor with size 10. The loader builds rooms with the size taken from the room's entry.
- **Inventory selection.** `GameStateChanger` calls `setSelectedStatus`, `selectNext`, `selectPrevious` and `selectedItemChangeEquipStatus` on the inventory. `Inventory.java` has none of them. They appear only as `Action` values, and no cursor or equip semantics are given to them.

The loader validates nothing except the `type` tag, and neither does the model:

- The loader does not check that a door's target room is in range, and neither does the model.
- The model does not reject an unknown behaviour name. Any such check would be inside `Mob.setMobBehavior`, which is not modelled. The model stores the behaviour name as given.

## Model

| member | source | states |
|---|---|---|
| Wrappers.MapResults | roguelike-game/src/main/java/repositories/MapRepository.java:61-69 | Building a list entry by entry succeeds iff every entry builds. On success the result has one element per entry, in order, each the build of its entry. On failure the error is the one of the first failing entry, and all entries before it build. |
| Rooms.NewRoom | roguelike-game/src/main/java/core/Room.java:19-25 | The four-argument constructor keeps visibility, corner and objects as given and always has size 10. |
| Rooms.MakeVisible | roguelike-game/src/main/java/core/Room.java:74-76 | Afterwards the room is visible. Its corner, size and objects are unchanged. |
| Rooms.MakeVisibleIdempotent | roguelike-game/src/main/java/core/Room.java:74-76 | Making a room visible twice equals making it visible once. An already visible room is unchanged. |
| Rooms.NextStepOutsideRoom | roguelike-game/src/main/java/core/Room.java:123-133 | The four sequential border tests refuse a step exactly when the target cell is not strictly inside the one-cell border (`posX < x`, `x + 1 < posX + size`, and the same for y). |
| Rooms.FirstIndexAt | roguelike-game/src/main/java/core/Room.java:41-48 | The scan counter stops at the index of the first object on the target cell. When no object is there, it stops at the list's length. |
| Rooms.RemoveAt | roguelike-game/src/main/java/core/Room.java:57-59 | Removal by index drops exactly that element. The length falls by one, the other elements keep their order, and the removed element is the only multiset difference. |
| Rooms.MakeMove | roguelike-game/src/main/java/core/Room.java:35-69 | First match wins. The result is that door's target room if the first object on the target cell is a door, and -1 otherwise. Only an item match removes that one element; otherwise the object list is unchanged. The mob moves to the target cell iff it is interior, and otherwise stays. A mob that moved, or started in the interior, ends in the interior. `stepOn` is called once, on the matched object, iff there is a match, and it sees the mob's position after the movement decision. Corner, size and visibility never change. |
| RoomLemmas.MoveRemovesOnlyPickedItem | roguelike-game/src/main/java/core/Room.java:57-59 | A move shortens the object list by one exactly when it stepped on an item. The remaining objects are the old ones minus that item. |
| RoomLemmas.TransitionIgnoresBounds | roguelike-game/src/main/java/core/Room.java:50-62 | The returned room id, the object stepped on and the new object list do not depend on the room's corner or size. Transition intent is independent of movement. |
| RoomLemmas.BlockedDoorStillLeads | roguelike-game/src/main/java/core/Room.java:50-62 | A door whose cell lies on or beyond the border still reports its target room, and the mob stays where it was. |
| RoomLemmas.RepeatAfterPickupIsQuiet | roguelike-game/src/main/java/core/Room.java:41-59 | After an item alone on a cell is picked up, repeating the move removes nothing, calls no hook and returns -1. |
| RoomLemmas.MovesStayInside | roguelike-game/src/main/java/core/Room.java:57-62 | Over any number of successive moves in one room, a mob that starts in the interior stays in the interior. The room keeps its corner, size and visibility, and its object list never grows. |
| RoomLemmas.DoorScenario | roguelike-game/src/main/java/core/Room.java:35-69 | Room at (0,0) of size 10 with a door at (5,5) to room 3. A mob at (4,5) moving right returns 3, ends on (5,5) and triggers the door's hook. |
| RoomLemmas.BorderScenario | roguelike-game/src/main/java/core/Room.java:123-133 | Room at (0,0) of size 5. A mob at (1,1) moving left is blocked, stays, and steps on nothing. |
| MapRepository.BuildGameObject | roguelike-game/src/main/java/repositories/MapRepository.java:71-101 | `door` gives a Door with the entry's x, y, target_x, target_y and target_room. `item` gives an Item with x, y and name. `mob` gives a Mob with x, y, health, power and behaviour. Any other tag fails. |
| MapRepository.BuildGameObjects | roguelike-game/src/main/java/repositories/MapRepository.java:61-69 | Succeeds iff every entry's tag is known. On success it gives one object per entry, in order. On failure the error names the first unknown tag. |
| MapRepository.BuildRoom | roguelike-game/src/main/java/repositories/MapRepository.java:41-48 | A room keeps its entry's visibility, corner and size, with its objects built from its entries. It fails iff its objects fail. |
| MapRepository.BuildPlayer | roguelike-game/src/main/java/repositories/MapRepository.java:36-39 | The player is absent iff the level has no `player` entry. Otherwise it stands at the entry's x and y. |
| MapRepository.BuildLevel | roguelike-game/src/main/java/repositories/MapRepository.java:30-53 | A level has one room per room entry, in order, plus the built player. It fails iff some room fails. |
| MapRepository.BuildLevels | roguelike-game/src/main/java/repositories/MapRepository.java:27-54 | One level per level entry, in order. Fails iff some level fails. |
| MapRepository.GetMap | roguelike-game/src/main/java/repositories/MapRepository.java:24-59 | A filled cache is returned unchanged, whatever the configuration. Success caches exactly the returned levels. Failure caches nothing. |
| MapRepositoryLemmas.FirstLoadBuilds | roguelike-game/src/main/java/repositories/MapRepository.java:25-58 | With an empty cache, the returned levels are exactly the ones built from the configuration. |
| MapRepositoryLemmas.ObjectRoundTrip | roguelike-game/src/main/java/repositories/MapRepository.java:71-101 | Describing an object and building it gives the object back. Building an entry and describing the result gives the entry back, up to the keys its tag ignores. |
| MapRepositoryLemmas.RoomRoundTrip | roguelike-game/src/main/java/repositories/MapRepository.java:41-48 | Every room is the build of its own description. |
| MapRepositoryLemmas.LevelRoundTrip | roguelike-game/src/main/java/repositories/MapRepository.java:30-53 | Every level is the build of its own description. |
| MapRepositoryLemmas.LoadRoundTrip | roguelike-game/src/main/java/repositories/MapRepository.java:27-54 | Every world is the load of its own description. |
| MapRepositoryLemmas.LoadKeepsShape | roguelike-game/src/main/java/repositories/MapRepository.java:28-53 | A successful load has as many levels as entries, rooms per level and objects per room as configured. The player is present exactly where configured, and each room keeps its visibility, corner and size. |
| MapRepositoryLemmas.UnknownTagFailsLoad | roguelike-game/src/main/java/repositories/MapRepository.java:98-99 | One unknown tag anywhere in the configuration makes the first load fail and leaves the cache empty. |
| MapRepositoryLemmas.CachedAfterSuccess | roguelike-game/src/main/java/repositories/MapRepository.java:25-56 | After a successful load, every later call returns the same levels and leaves the repository unchanged, whatever configuration it is given. |
| GameStateChanger.Call | roguelike-game/src/main/java/lib/GameStateChanger.java:9-55 | Each event triggers exactly one action. The four moves are `updateGameState` with (0,-1), (0,1), (-1,0) and (1,0), each one unit step. Select and unselect set the selected status to true and false. Next and previous map to `SelectNext` and `SelectPrevious`. Equip maps to `ChangeEquipStatus(player)` with the current player. Exit maps to `Exit`, and any other event maps to `Warn(event)`. |
| GameStateChanger.MoveEventsAreUnitSteps | roguelike-game/src/main/java/lib/GameStateChanger.java:14-29 | The four move events and the four unit steps correspond one to one. Each move event's delta leads back to it, and each unit step is the delta of exactly one move event. |
| GameStateChanger.CallIsInjective | roguelike-game/src/main/java/lib/GameStateChanger.java:13-55 | Different events never trigger the same action. |
| Inventories.NewInventory | roguelike-game/src/main/java/models/Inventory.java:10-12 | A new inventory holds no items. |
| Inventories.AddItem | roguelike-game/src/main/java/models/Inventory.java:20-22 | Adding an item increases the count by one. The new item is last, and the old list is a prefix of the new one. |
| Inventories.GetInventory | roguelike-game/src/main/java/models/Inventory.java:14-18 | An existing instance is returned and kept. Otherwise an empty one is created and kept. |
| Inventories.PickUpsAccumulate | roguelike-game/src/main/java/models/Inventory.java:14-22 | After any sequence of `getInventory().addItem(...)` calls, the instance holds the earlier items followed by the added ones, in order. No item is ever discarded. |

## Left out

- Rendering (`ui/Renderer.java`) is left out entirely. It is terminal output and a polling loop.
- Reading and parsing the configuration file, and the `Repository` base class, are left out. The loader starts from descriptors that already have the configuration's shape.
- Malformed configuration is not modelled: the descriptor types require every key, except the optional `player` entry of a level, which the model handles. In Java a missing `levels`, `rooms`, `objects` or `type` key, or a missing `visible`, `x`, `y` or `size` of a room, raises a `NullPointerException`. A missing object field, `name` or `behavior` is passed on as null. A value of the wrong type raises a `ClassCastException`.
- Integers are unbounded. Java's 32-bit `int` wrap-around in `mob.posX() + dx` and similar sums is not modelled. Positions and unit deltas stay far from the limits.
- The bodies of `stepOn`, `Door.leadsTo`, `Mob.move` and `Mob.setMobBehavior` are not part of this model, nor are the mob behaviour strategies. `stepOn` appears as the recorded `StepOn` call. `leadsTo()` is taken to return the `target_room` the door was built with, and `Mob.move(dx, dy)` to translate the mob by (dx, dy). The behaviour is kept as the configured name.
- `GameState` is not part of this model: `updateGameState`, room switching and the visibility reveal on entering a room. `GameStateChanger.Call` takes the current player as a parameter instead of reading it from the game state.
- The inventory selection and equip operations are not part of this model. They exist only as `Action` values.
- `Logger.log` calls are left out. `System.exit(0)` is the `Exit` action. In Java the `GAME_EXIT` case falls through to the warning branch, but that branch is never reached because `System.exit` does not return.
- The Java exception for an unknown tag carries no message. The model's `UnknownObjectType` error also records the offending tag, for readability only.
- Mutable rooms are modelled as values. In Java a room keeps the list it was given and removes picked-up items from it in place. `makeVisible` also sets the flag in place, and `getRoomContent` hands out the list itself. In the model, `MakeMove` and `MakeVisible` return new values instead.
- The sharing between the loader's cache and the rooms in play is not modelled. Java's `getMap` caches the `Level[]` it built and returns that same array later, so a later call sees rooms as play has changed them (items gone, entered rooms visible). The model's cache, and `CachedAfterSuccess`, return the levels as first built.
- The Java singleton is an explicit `Holder` value. Only its "created once, never reset" behaviour is modelled.
