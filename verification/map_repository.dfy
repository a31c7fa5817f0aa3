/** Construction of the levels from the decoded map configuration, with the
    cache that makes later calls return the first result
    (repositories/MapRepository.java). The configuration is taken as already
    decoded into the descriptor values below; reading and parsing the file is
    not part of this model. */
module MapRepository {
  import opened Wrappers
  import opened Models
  import opened Rooms

  /** One entry of a room's `objects` list. `kind` is the entry's `type`
      tag; the other fields are its keys of the same names, of which each
      tag reads only some. */
  datatype ObjectDesc = ObjectDesc(
    kind: string, x: int, y: int,
    targetX: int, targetY: int, targetRoom: int,
    name: string,
    health: int, power: int, behavior: string)

  datatype PlayerDesc = PlayerDesc(x: int, y: int)

  datatype RoomDesc = RoomDesc(visible: bool, x: int, y: int, size: int, objects: seq<ObjectDesc>)

  /** A level entry; `player` is absent when the entry has no `player` key. */
  datatype LevelDesc = LevelDesc(player: Option<PlayerDesc>, rooms: seq<RoomDesc>)

  /** The source throws an `IllegalArgumentException` for an unknown tag;
      the error value names the tag that was not recognised. */
  datatype LoadError = UnknownObjectType(kind: string)

  predicate KnownKind(kind: string) {
    kind == "door" || kind == "item" || kind == "mob"
  }

  /** Builds the object an entry describes, dispatching on its tag. */
  function BuildGameObject(d: ObjectDesc): (r: Result<GameObject, LoadError>)
    ensures r.Err? <==> !KnownKind(d.kind)
    ensures r.Err? ==> r.error == UnknownObjectType(d.kind)
    ensures r.Ok? ==> r.value.pos == Pos(d.x, d.y)
    ensures d.kind == "door" ==>
              && r.Ok? && r.value.Door?
              && r.value.target == Pos(d.targetX, d.targetY) && r.value.targetRoom == d.targetRoom
    ensures d.kind == "item" ==> r.Ok? && r.value.Item? && r.value.name == d.name
    ensures d.kind == "mob" ==>
              && r.Ok? && r.value.Mob?
              && r.value.health == d.health && r.value.power == d.power
              && r.value.behavior == d.behavior
  {
    match d.kind
    case "door" => Ok(Door(Pos(d.x, d.y), Pos(d.targetX, d.targetY), d.targetRoom))
    case "item" => Ok(Item(Pos(d.x, d.y), d.name))
    case "mob" => Ok(Mob(Pos(d.x, d.y), d.health, d.power, d.behavior))
    case _ => Err(UnknownObjectType(d.kind))
  }

  /** Builds the objects of a room in order; the first unknown tag fails the
      whole list. */
  function BuildGameObjects(ds: seq<ObjectDesc>): (r: Result<seq<GameObject>, LoadError>)
    ensures r.Ok? <==> forall i :: 0 <= i < |ds| ==> KnownKind(ds[i].kind)
    ensures r.Ok? ==> |r.value| == |ds|
    ensures r.Ok? ==> forall i :: 0 <= i < |ds| ==> BuildGameObject(ds[i]) == Ok(r.value[i])
    ensures r.Err? ==> exists i :: 0 <= i < |ds| && r.error == UnknownObjectType(ds[i].kind)
                                  && !KnownKind(ds[i].kind)
                                  && forall j :: 0 <= j < i ==> KnownKind(ds[j].kind)
  {
    MapResults(BuildGameObject, ds)
  }

  /** A room keeps the descriptor's visibility, corner and size. */
  function BuildRoom(d: RoomDesc): (r: Result<Room, LoadError>)
    ensures r.Ok? <==> BuildGameObjects(d.objects).Ok?
    ensures r.Ok? ==> r.value == Room(d.visible, d.x, d.y, d.size, BuildGameObjects(d.objects).value)
    ensures r.Err? ==> r.error == BuildGameObjects(d.objects).error
  {
    match BuildGameObjects(d.objects)
    case Err(e) => Err(e)
    case Ok(objects) => Ok(Room(d.visible, d.x, d.y, d.size, objects))
  }

  function BuildPlayer(d: Option<PlayerDesc>): (p: Option<Player>)
    ensures p.Some? <==> d.Some?
    ensures p.Some? ==> p.value.pos == Pos(d.value.x, d.value.y)
  {
    match d
    case None => None
    case Some(pd) => Some(Player(Pos(pd.x, pd.y)))
  }

  /** One room per room entry, in order, and the player when configured. */
  function BuildLevel(d: LevelDesc): (r: Result<Level, LoadError>)
    ensures r.Ok? <==> forall i :: 0 <= i < |d.rooms| ==> BuildRoom(d.rooms[i]).Ok?
    ensures r.Ok? ==> |r.value.rooms| == |d.rooms|
    ensures r.Ok? ==> forall i :: 0 <= i < |d.rooms| ==> BuildRoom(d.rooms[i]) == Ok(r.value.rooms[i])
    ensures r.Ok? ==> r.value.player == BuildPlayer(d.player)
  {
    match MapResults(BuildRoom, d.rooms)
    case Err(e) => Err(e)
    case Ok(rooms) => Ok(Level(rooms, BuildPlayer(d.player)))
  }

  /** One level per level entry, in order. */
  function BuildLevels(ds: seq<LevelDesc>): (r: Result<seq<Level>, LoadError>)
    ensures r.Ok? <==> forall i :: 0 <= i < |ds| ==> BuildLevel(ds[i]).Ok?
    ensures r.Ok? ==> |r.value| == |ds|
    ensures r.Ok? ==> forall i :: 0 <= i < |ds| ==> BuildLevel(ds[i]) == Ok(r.value[i])
  {
    MapResults(BuildLevel, ds)
  }

  /** The repository's state: the levels of the first successful load. */
  datatype Repository = Repository(levels: Option<seq<Level>>)

  /** What `getMap` returns, and the repository after the call. */
  datatype Loaded = Loaded(result: Result<seq<Level>, LoadError>, after: Repository)

  /** The empty cache the repository starts with. */
  const Fresh: Repository := Repository(None)

  /** `getMap`: a filled cache is returned as it is, whatever the
      configuration says; otherwise the levels are built from the
      configuration (`FirstLoadBuilds`); success fills the cache with the
      returned levels and failure caches nothing. */
  function GetMap(cache: Repository, data: seq<LevelDesc>): (loaded: Loaded)
    ensures cache.levels.Some? ==> loaded == Loaded(Ok(cache.levels.value), cache)
    ensures loaded.result.Ok? ==> loaded.after.levels == Some(loaded.result.value)
    ensures loaded.result.Err? ==> loaded.after == cache
  {
    match cache.levels
    case Some(levels) => Loaded(Ok(levels), cache)
    case None =>
      match BuildLevels(data)
      case Err(e) => Loaded(Err(e), cache)
      case Ok(levels) => Loaded(Ok(levels), Repository(Some(levels)))
  }
}
