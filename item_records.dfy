/** The stored records of the backend (box_back/.../app/models.py): the
    container size of a task and the items with their position, size and
    flags, with the projections the API reads from them. */
module ItemRecords {
  import opened Wrappers
  import opened Geometry

  /** `SpaceInfo`: the container size of a task. */
  datatype SpaceInfo = SpaceInfo(x: real, y: real, z: real) {
    /** `as_dict`. */
    function AsDict(): Vec3 {
      Vec3(x, y, z)
    }
  }

  /** A stored item: its order number, name, minimum corner, size
      (width on x, height on y, depth on z) and the two flags. */
  datatype Item = Item(
    orderId: int, name: string,
    positionX: real, positionY: real, positionZ: real,
    width: real, height: real, depth: real,
    faceUp: bool, fragile: bool)
  {
    /** `position`. */
    function Position(): Vec3 {
      Vec3(positionX, positionY, positionZ)
    }

    /** `dimensions`. */
    function Dimensions(): Vec3 {
      Vec3(width, height, depth)
    }

    /** `special_properties`: one label per flag that is set, in this order. */
    function SpecialProperties(): (r: seq<string>)
      ensures "Face Up" in r <==> faceUp
      ensures "Fragile (Top Layer)" in r <==> fragile
      ensures |r| == (if faceUp then 1 else 0) + (if fragile then 1 else 0)
      ensures faceUp ==> r[0] == "Face Up"
    {
      var props := if faceUp then ["Face Up"] else [];
      if fragile then props + ["Fragile (Top Layer)"] else props
    }
  }

  /** The keyword names the `Task` model accepts when it is created: its
      fields and the id columns behind its foreign keys. */
  const TaskFieldNames: set<string> :=
    {"id", "pk", "creator", "creator_id", "worker", "worker_id", "space_info", "space_info_id", "created_at"}

  /** The keyword names the `Item` model accepts when it is created. */
  const ItemFieldNames: set<string> :=
    {"id", "pk", "item_id", "name", "position_x", "position_y", "position_z",
     "width", "height", "depth", "face_up", "fragile", "task", "task_id"}

  /** A boolean field with `default=False`: only an explicit true is stored as true. */
  function FlagOrDefault(v: Option<bool>): (b: bool)
    ensures b <==> v == Some(true)
  {
    v.GetOr(false)
  }

  /** `as_dict` gives back the size a `SpaceInfo` was stored with. */
  lemma SpaceInfoRoundTrip(v: Vec3)
    ensures SpaceInfo(v.x, v.y, v.z).AsDict() == v
  {
  }

  /** Two items with the same position and dimensions agree on every
      geometric field: the projections lose nothing. */
  lemma ProjectionsDetermineGeometry(a: Item, b: Item)
    requires a.Position() == b.Position() && a.Dimensions() == b.Dimensions()
    ensures a.positionX == b.positionX && a.positionY == b.positionY && a.positionZ == b.positionZ
    ensures a.width == b.width && a.height == b.height && a.depth == b.depth
  {
  }
}
