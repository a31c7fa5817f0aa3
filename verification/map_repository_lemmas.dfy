/** The loader against an independent description of its output: every
    world can be written back as a configuration that loads to it, every
    built object agrees with the fields of its entry, and the cache keeps
    the first successful load. */
module MapRepositoryLemmas {
  import opened Wrappers
  import opened Models
  import opened Rooms
  import opened MapRepository

  /** The configuration entry for an object; keys its tag does not read are
      left at zero or empty. */
  function Describe(o: GameObject): ObjectDesc {
    match o
    case Door(p, t, room) => ObjectDesc("door", p.x, p.y, t.x, t.y, room, "", 0, 0, "")
    case Item(p, name) => ObjectDesc("item", p.x, p.y, 0, 0, 0, name, 0, 0, "")
    case Mob(p, h, pw, b) => ObjectDesc("mob", p.x, p.y, 0, 0, 0, "", h, pw, b)
  }

  /** An entry with the keys its tag does not read cleared. */
  function Relevant(d: ObjectDesc): ObjectDesc {
    match d.kind
    case "door" => ObjectDesc("door", d.x, d.y, d.targetX, d.targetY, d.targetRoom, "", 0, 0, "")
    case "item" => ObjectDesc("item", d.x, d.y, 0, 0, 0, d.name, 0, 0, "")
    case "mob" => ObjectDesc("mob", d.x, d.y, 0, 0, 0, "", d.health, d.power, d.behavior)
    case _ => d
  }

  function DescribeObjects(os: seq<GameObject>): (ds: seq<ObjectDesc>)
    ensures |ds| == |os| && forall i :: 0 <= i < |os| ==> ds[i] == Describe(os[i])
  {
    seq(|os|, i requires 0 <= i < |os| => Describe(os[i]))
  }

  function DescribeRoom(r: Room): RoomDesc {
    RoomDesc(r.visible, r.posX, r.posY, r.size, DescribeObjects(r.objects))
  }

  function DescribeLevel(l: Level): LevelDesc {
    LevelDesc(
      match l.player case None => None case Some(p) => Some(PlayerDesc(p.pos.x, p.pos.y)),
      seq(|l.rooms|, i requires 0 <= i < |l.rooms| => DescribeRoom(l.rooms[i])))
  }

  function DescribeLevels(ls: seq<Level>): seq<LevelDesc> {
    seq(|ls|, i requires 0 <= i < |ls| => DescribeLevel(ls[i]))
  }

  /** Building an object and describing it are inverse: describing then
      building gives the object back, and building then describing gives the
      entry back up to the keys its tag ignores. */
  lemma ObjectRoundTrip(o: GameObject, d: ObjectDesc)
    ensures BuildGameObject(Describe(o)) == Ok(o)
    ensures BuildGameObject(d).Ok? ==> Describe(BuildGameObject(d).value) == Relevant(d)
  {
  }

  lemma RoomRoundTrip(r: Room)
    ensures BuildRoom(DescribeRoom(r)) == Ok(r)
  {
    var ds := DescribeObjects(r.objects);
    forall i | 0 <= i < |ds|
      ensures KnownKind(ds[i].kind)
    {
      ObjectRoundTrip(r.objects[i], ds[i]);
    }
    var built := BuildGameObjects(ds);
    forall i | 0 <= i < |ds|
      ensures built.value[i] == r.objects[i]
    {
      ObjectRoundTrip(r.objects[i], ds[i]);
    }
    assert built.value == r.objects;
  }

  lemma LevelRoundTrip(l: Level)
    ensures BuildLevel(DescribeLevel(l)) == Ok(l)
  {
    var d := DescribeLevel(l);
    forall i | 0 <= i < |d.rooms|
      ensures BuildRoom(d.rooms[i]) == Ok(l.rooms[i])
    {
      RoomRoundTrip(l.rooms[i]);
    }
    assert BuildLevel(d).value.rooms == l.rooms;
  }

  /** Every world is the load of its own description. */
  lemma LoadRoundTrip(ls: seq<Level>)
    ensures BuildLevels(DescribeLevels(ls)) == Ok(ls)
  {
    var ds := DescribeLevels(ls);
    forall i | 0 <= i < |ds|
      ensures BuildLevel(ds[i]) == Ok(ls[i])
    {
      LevelRoundTrip(ls[i]);
    }
    assert BuildLevels(ds).value == ls;
  }

  /** The loaded world has the configuration's shape: as many levels, rooms
      per level and objects per room as there are entries, the player present
      exactly where configured, each room keeping its corner, size and
      visibility. */
  lemma LoadKeepsShape(data: seq<LevelDesc>, i: nat, j: nat)
    requires BuildLevels(data).Ok?
    requires i < |data| && j < |data[i].rooms|
    ensures var ls := BuildLevels(data).value;
            var rd := data[i].rooms[j];
            && |ls| == |data|
            && |ls[i].rooms| == |data[i].rooms|
            && (ls[i].player.Some? <==> data[i].player.Some?)
            && (ls[i].player.Some? ==> ls[i].player.value.pos == Pos(data[i].player.value.x, data[i].player.value.y))
            && |ls[i].rooms[j].objects| == |rd.objects|
            && ls[i].rooms[j].visible == rd.visible
            && ls[i].rooms[j].posX == rd.x && ls[i].rooms[j].posY == rd.y
            && ls[i].rooms[j].size == rd.size
  {
    var ls := BuildLevels(data).value;
    assert BuildLevel(data[i]) == Ok(ls[i]);
    assert BuildRoom(data[i].rooms[j]) == Ok(ls[i].rooms[j]);
  }

  /** With an empty cache, the levels returned are exactly the build of the
      configuration. */
  lemma FirstLoadBuilds(cache: Repository, data: seq<LevelDesc>)
    requires cache.levels.None?
    ensures GetMap(cache, data).result == BuildLevels(data)
  {
  }

  /** One entry with an unknown tag anywhere in the configuration makes a
      first load fail, and nothing is cached. */
  lemma UnknownTagFailsLoad(data: seq<LevelDesc>, i: nat, j: nat, k: nat)
    requires i < |data| && j < |data[i].rooms| && k < |data[i].rooms[j].objects|
    requires !KnownKind(data[i].rooms[j].objects[k].kind)
    ensures GetMap(Fresh, data).result.Err?
    ensures GetMap(Fresh, data).after == Fresh
  {
    assert BuildGameObjects(data[i].rooms[j].objects).Err?;
    assert BuildRoom(data[i].rooms[j]).Err?;
    assert BuildLevel(data[i]).Err?;
  }

  /** After a successful load every later call returns the same levels and
      leaves the repository as it is, whatever configuration it is given. */
  lemma CachedAfterSuccess(repo: Repository, data: seq<LevelDesc>, later: seq<LevelDesc>)
    requires GetMap(repo, data).result.Ok?
    ensures var first := GetMap(repo, data);
            GetMap(first.after, later) == first
  {
  }
}
