/** A room of the map and the resolution of one move inside it
    (core/Room.java), plus the level that groups rooms. */
module Rooms {
  import opened Wrappers
  import opened Models

  /** The size the four-argument constructor hard-codes. */
  const DefaultSize: int := 10

  /** What `makeMove` returns when the mover stays in the room. */
  const StayInRoom: int := -1

  /** `posX`/`posY` is the top-left corner, `size` the outer extent
      (border included) in both directions. Only `visible` and `objects`
      ever change after construction. */
  datatype Room = Room(visible: bool, posX: int, posY: int, size: int, objects: seq<GameObject>)

  /** An ordered, index-addressed sequence of rooms and the player's spawn,
      absent when the level does not configure one. Level.java is not part of
      this model; only the two values the loader hands it are kept. */
  datatype Level = Level(rooms: seq<Room>, player: Option<Player>)

  /** The four-argument constructor: the size is always the default. */
  function NewRoom(visible: bool, posX: int, posY: int, objects: seq<GameObject>): (r: Room)
    ensures r.size == DefaultSize
    ensures r.visible == visible && r.posX == posX && r.posY == posY
    ensures r.objects == objects
  {
    Room(visible, posX, posY, DefaultSize, objects)
  }

  function MakeVisible(r: Room): (r': Room)
    ensures r'.visible
    ensures r'.posX == r.posX && r'.posY == r.posY && r'.size == r.size
    ensures r'.objects == r.objects
  {
    r.(visible := true)
  }

  /** Making a room visible twice is the same as making it visible once, and
      a visible room is left as it is. */
  lemma MakeVisibleIdempotent(r: Room)
    ensures MakeVisible(MakeVisible(r)) == MakeVisible(r)
    ensures r.visible ==> MakeVisible(r) == r
  {
  }

  /** The cells strictly inside the one-cell border of `r`. */
  predicate InInterior(r: Room, p: Pos) {
    && r.posX < p.x && p.x + 1 < r.posX + r.size
    && r.posY < p.y && p.y + 1 < r.posY + r.size
  }

  /** The four border tests of `nextStepOutsideRoom`, in their order: the step is
      refused as soon as one side of the border would be reached. */
  function NextStepOutsideRoom(r: Room, mob: Pos, dx: int, dy: int): (outside: bool)
    ensures outside <==> !InInterior(r, Step(mob, dx, dy))
  {
    if mob.x + dx + 1 >= r.posX + r.size then true
    else if mob.x + dx <= r.posX then true
    else if mob.y + dy + 1 >= r.posY + r.size then true
    else if mob.y + dy <= r.posY then true
    else false
  }

  /** `k` is the index of the first object standing on `p`. */
  ghost predicate FirstAt(objects: seq<GameObject>, p: Pos, k: int) {
    && 0 <= k < |objects|
    && objects[k].pos == p
    && forall j :: 0 <= j < k ==> objects[j].pos != p
  }

  /** No object stands on `p`. */
  ghost predicate NothingAt(objects: seq<GameObject>, p: Pos) {
    forall j :: 0 <= j < |objects| ==> objects[j].pos != p
  }

  /** The value of the scan counter `objId` when the scan ends: the index of
      the first object on `p`, or the length of the list when there is none. */
  function FirstIndexAt(objects: seq<GameObject>, p: Pos): (k: nat)
    ensures k <= |objects|
    ensures k < |objects| ==> FirstAt(objects, p, k)
    ensures k == |objects| ==> NothingAt(objects, p)
  {
    if |objects| == 0 then 0
    else if objects[0].pos == p then 0
    else
      var k := 1 + FirstIndexAt(objects[1..], p);
      assert forall j :: 1 <= j < |objects| ==> objects[j] == objects[1..][j - 1];
      k
  }

  /** Removal by index from a list: the element at `i` goes, the others keep
      their order. */
  function RemoveAt<T>(s: seq<T>, i: nat): (r: seq<T>)
    requires i < |s|
    ensures |r| == |s| - 1
    ensures forall j :: 0 <= j < i ==> r[j] == s[j]
    ensures forall j :: i <= j < |r| ==> r[j] == s[j + 1]
    ensures multiset(r) + multiset{s[i]} == multiset(s)
  {
    assert s == s[..i] + [s[i]] + s[i + 1..];
    s[..i] + s[i + 1..]
  }

  /** The call of the matched object's `stepOn` hook, and the position the
      mover has when the hook receives it. */
  datatype StepOn = StepOn(target: GameObject, mob: Pos)

  /** Everything one call of `makeMove` produces: the room with its updated
      object list, the mover's new position, the returned room id and the
      hook call, if any. */
  datatype Turn = Turn(room: Room, mob: Pos, next: int, stepped: Option<StepOn>)

  /** One move of a mob standing on `mob` by (dx, dy) inside `room`. */
  function MakeMove(room: Room, mob: Pos, dx: int, dy: int): (t: Turn)
    // Only the object list of the room can change.
    ensures t.room.visible == room.visible
    ensures t.room.posX == room.posX && t.room.posY == room.posY && t.room.size == room.size
    // An empty target cell: no transition, no hook, no change to the objects.
    ensures NothingAt(room.objects, Step(mob, dx, dy)) ==>
              t.next == StayInRoom && t.stepped == None && t.room.objects == room.objects
    // The first object on the target cell is the one interacted with.
    ensures forall k :: FirstAt(room.objects, Step(mob, dx, dy), k) ==>
              && t.stepped == Some(StepOn(room.objects[k], t.mob))
              && t.next == (if room.objects[k].Door? then room.objects[k].targetRoom else StayInRoom)
              && t.room.objects == (if room.objects[k].Item? then RemoveAt(room.objects, k)
                                    else room.objects)
    // The mover goes to the target cell exactly when that cell is interior.
    ensures t.mob == (if InInterior(room, Step(mob, dx, dy)) then Step(mob, dx, dy) else mob)
    ensures t.mob == mob || InInterior(room, t.mob)
    ensures InInterior(room, mob) ==> InInterior(room, t.mob)
  {
    var target := Step(mob, dx, dy);
    var objId := FirstIndexAt(room.objects, target);
    var found := objId < |room.objects|;
    var next := if found && room.objects[objId].Door? then room.objects[objId].targetRoom
                else StayInRoom;
    var objects := if found && room.objects[objId].Item? then RemoveAt(room.objects, objId)
                   else room.objects;
    var mob' := if !NextStepOutsideRoom(room, mob, dx, dy) then target else mob;
    var stepped := if found then Some(StepOn(room.objects[objId], mob')) else None;
    Turn(room.(objects := objects), mob', next, stepped)
  }
}
