/** Properties relating several calls of `makeMove`, or a call of it to the
    room it was made in. */
module RoomLemmas {
  import opened Wrappers
  import opened Models
  import opened Rooms

  /** A move removes one object exactly when it stepped on an item, and the
      objects that remain are the old ones less that item. */
  lemma MoveRemovesOnlyPickedItem(room: Room, mob: Pos, dx: int, dy: int)
    ensures var t := MakeMove(room, mob, dx, dy);
            var picked := t.stepped.Some? && t.stepped.value.target.Item?;
            && |t.room.objects| == |room.objects| - (if picked then 1 else 0)
            && multiset(t.room.objects) + (if picked then multiset{t.stepped.value.target} else multiset{})
               == multiset(room.objects)
  {
    var target := Step(mob, dx, dy);
    var k := FirstIndexAt(room.objects, target);
    if k < |room.objects| {
      assert FirstAt(room.objects, target, k);
    }
  }

  /** Where a move leads, what it steps on and what it picks up do not depend
      on where the room's border is: a door is reported even when the border
      blocks the step onto it. */
  lemma TransitionIgnoresBounds(room: Room, posX: int, posY: int, size: int, mob: Pos, dx: int, dy: int)
    ensures var other := room.(posX := posX, posY := posY, size := size);
            var t := MakeMove(room, mob, dx, dy);
            var u := MakeMove(other, mob, dx, dy);
            && t.next == u.next
            && t.room.objects == u.room.objects
            && (t.stepped.Some? <==> u.stepped.Some?)
            && (t.stepped.Some? ==> t.stepped.value.target == u.stepped.value.target)
  {
    var target := Step(mob, dx, dy);
    var k := FirstIndexAt(room.objects, target);
    if k < |room.objects| {
      assert FirstAt(room.objects, target, k);
      assert FirstAt(room.(posX := posX, posY := posY, size := size).objects, target, k);
    }
  }

  /** A door on the target cell is reported even when the step is refused,
      and the mover then stays where it was. */
  lemma BlockedDoorStillLeads(room: Room, mob: Pos, dx: int, dy: int, k: nat)
    requires FirstAt(room.objects, Step(mob, dx, dy), k)
    requires room.objects[k].Door?
    requires !InInterior(room, Step(mob, dx, dy))
    ensures MakeMove(room, mob, dx, dy).next == room.objects[k].targetRoom
    ensures MakeMove(room, mob, dx, dy).mob == mob
  {
  }

  /** Once a move has picked up the only object on a cell, repeating that
      move from the same place changes no object and calls no hook. */
  lemma RepeatAfterPickupIsQuiet(room: Room, mob: Pos, dx: int, dy: int, k: nat)
    requires FirstAt(room.objects, Step(mob, dx, dy), k)
    requires room.objects[k].Item?
    requires forall j :: 0 <= j < |room.objects| && j != k ==> room.objects[j].pos != Step(mob, dx, dy)
    ensures var again := MakeMove(MakeMove(room, mob, dx, dy).room, mob, dx, dy);
            && again.room.objects == RemoveAt(room.objects, k)
            && again.stepped == None
            && again.next == StayInRoom
  {
    var rest := RemoveAt(room.objects, k);
    assert NothingAt(rest, Step(mob, dx, dy)) by {
      forall j | 0 <= j < |rest|
        ensures rest[j].pos != Step(mob, dx, dy)
      {
        if j < k {
          assert rest[j] == room.objects[j];
        } else {
          assert rest[j] == room.objects[j + 1];
        }
      }
    }
  }

  /** A room at (0,0) of size 10 with a door at (5,5) to room 3: a mob at
      (4,5) moving right enters the door's cell and is sent to room 3. */
  lemma DoorScenario()
    ensures var door := Door(Pos(5, 5), Pos(1, 1), 3);
            var t := MakeMove(Room(false, 0, 0, 10, [door]), Pos(4, 5), 1, 0);
            && t.next == 3
            && t.mob == Pos(5, 5)
            && t.stepped == Some(StepOn(door, Pos(5, 5)))
  {
    assert FirstAt([Door(Pos(5, 5), Pos(1, 1), 3)], Pos(5, 5), 0);
  }

  /** A room at (0,0) of size 5: a player at (1,1) moving left would reach the
      border column, so it stays put and nothing is stepped on. */
  lemma BorderScenario()
    ensures var t := MakeMove(Room(true, 0, 0, 5, []), Pos(1, 1), -1, 0);
            && t.mob == Pos(1, 1)
            && t.next == StayInRoom
            && t.stepped == None
  {
  }

  /** Successive moves of one mob inside the same room, each starting from
      the room and position the previous one left behind. */
  function MakeMoves(room: Room, mob: Pos, deltas: seq<(int, int)>): Turn
    decreases |deltas|
  {
    if |deltas| == 0 then Turn(room, mob, StayInRoom, None)
    else
      var t := MakeMove(room, mob, deltas[0].0, deltas[0].1);
      if |deltas| == 1 then t else MakeMoves(t.room, t.mob, deltas[1..])
  }

  /** However many moves a mob makes in a room, a mob that starts in the
      interior never leaves it, the room keeps its corner, size and
      visibility, and its object list never grows. */
  lemma {:induction false} MovesStayInside(room: Room, mob: Pos, deltas: seq<(int, int)>)
    requires InInterior(room, mob)
    ensures var t := MakeMoves(room, mob, deltas);
            && InInterior(room, t.mob)
            && t.room.posX == room.posX && t.room.posY == room.posY
            && t.room.size == room.size && t.room.visible == room.visible
            && |t.room.objects| <= |room.objects|
    decreases |deltas|
  {
    if |deltas| > 1 {
      var t := MakeMove(room, mob, deltas[0].0, deltas[0].1);
      MoveRemovesOnlyPickedItem(room, mob, deltas[0].0, deltas[0].1);
      MovesStayInside(t.room, t.mob, deltas[1..]);
    } else if |deltas| == 1 {
      MoveRemovesOnlyPickedItem(room, mob, deltas[0].0, deltas[0].1);
    }
  }
}
