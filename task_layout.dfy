/** Task creation in the backend (box_back/.../app/views.py, `create_task`):
    the creator and the optional worker are looked up, then the items are laid
    side by side along the x axis in input order and numbered from 1. */
module TaskLayout {
  import opened Wrappers
  import opened Geometry
  import opened ItemRecords

  /** An item of the request: name, size as `{x, y, z}` and the optional flags. */
  datatype ItemRequest = ItemRequest(name: string, dimensions: Vec3, faceUp: Option<bool>, fragile: Option<bool>)

  datatype TaskRequest = TaskRequest(creatorId: int, workerId: Option<int>, space: Vec3, items: seq<ItemRequest>)

  datatype Task = Task(creatorId: int, workerId: Option<int>, spaceInfo: SpaceInfo, items: seq<Item>)

  /** 201 with the created task, 404 with a message, or 500 when the ORM raises. */
  datatype Response = Created(task: Task) | NotFound(error: string) | ServerError

  /** The widths (`dimensions['x']`) of the items, added up. */
  function WidthSum(items: seq<ItemRequest>): real {
    if items == [] then 0.0
    else WidthSum(items[..|items| - 1]) + items[|items| - 1].dimensions.x
  }

  /** The record stored for the `i`-th item (from 0). Reading it back through
      `position`, `dimensions` and `special_properties` gives the layout
      position, the requested size and the requested flags (false when absent). */
  function StoredItem(items: seq<ItemRequest>, i: nat): (r: Item)
    requires i < |items|
    ensures r.orderId == i + 1 && r.name == items[i].name
    ensures r.Dimensions() == items[i].dimensions
    ensures r.Position() == Vec3(WidthSum(items[..i]), 0.0, 0.0)
    ensures "Face Up" in r.SpecialProperties() <==> items[i].faceUp == Some(true)
    ensures "Fragile (Top Layer)" in r.SpecialProperties() <==> items[i].fragile == Some(true)
  {
    Item(i + 1, items[i].name,
         WidthSum(items[..i]), 0.0, 0.0,
         items[i].dimensions.x, items[i].dimensions.y, items[i].dimensions.z,
         FlagOrDefault(items[i].faceUp), FlagOrDefault(items[i].fragile))
  }

  /** The `for index, item_data in enumerate(items_data)` loop with its running
      `current_x`. */
  method PlaceItems(items: seq<ItemRequest>) returns (placed: seq<Item>)
    ensures |placed| == |items|
    ensures forall i :: 0 <= i < |items| ==> placed[i] == StoredItem(items, i)
  {
    var currentX := 0.0;
    placed := [];
    for index := 0 to |items|
      invariant |placed| == index
      invariant currentX == WidthSum(items[..index])
      invariant forall j :: 0 <= j < index ==> placed[j] == StoredItem(items, j)
    {
      var itemData := items[index];
      var orderId := index + 1;
      var dimensions := itemData.dimensions;
      var position := Vec3(currentX, 0.0, 0.0);
      currentX := currentX + dimensions.x;
      assert items[..index + 1][..index] == items[..index];
      placed := placed + [Item(orderId, itemData.name,
                               position.x, position.y, position.z,
                               dimensions.x, dimensions.y, dimensions.z,
                               FlagOrDefault(itemData.faceUp), FlagOrDefault(itemData.fragile))];
    }
  }

  /** Each item starts where the previous one ends. */
  lemma LayoutFlush(items: seq<ItemRequest>, i: nat)
    requires i + 1 < |items|
    ensures StoredItem(items, i + 1).positionX == StoredItem(items, i).positionX + StoredItem(items, i).width
  {
    assert items[..i + 1][..i] == items[..i];
  }

  /** With widths that are not negative, a later item starts no earlier than
      an earlier one ends. */
  lemma {:induction false} WidthSumMonotone(items: seq<ItemRequest>, i: nat, j: nat)
    requires i <= j <= |items|
    requires forall k :: 0 <= k < |items| ==> items[k].dimensions.x >= 0.0
    ensures WidthSum(items[..i]) <= WidthSum(items[..j])
    decreases j - i
  {
    if i < j {
      WidthSumMonotone(items, i, j - 1);
      assert items[..j][..j - 1] == items[..j - 1];
    }
  }

  /** A stored item as a cube. */
  function CubeOf(it: Item): Cube {
    Cube(it.positionX, it.positionY, it.positionZ, it.width, it.height, it.depth, "")
  }

  /** With widths that are not negative, no two laid-out items overlap under
      the editors' open-interval test. */
  lemma LayoutNoOverlap(items: seq<ItemRequest>, i: nat, j: nat)
    requires i < |items| && j < |items| && i != j
    requires forall k :: 0 <= k < |items| ==> items[k].dimensions.x >= 0.0
    ensures !Intersects(CubeOf(StoredItem(items, i)), CubeOf(StoredItem(items, j)))
  {
    var lo, hi := if i < j then i else j, if i < j then j else i;
    assert items[..lo + 1][..lo] == items[..lo];
    WidthSumMonotone(items, lo + 1, hi);
  }

  /** The container size is never consulted: the last item ends at the total
      width, whatever the container. */
  lemma LayoutIgnoresContainer(items: seq<ItemRequest>)
    requires |items| > 0
    ensures StoredItem(items, |items| - 1).positionX + StoredItem(items, |items| - 1).width == WidthSum(items)
  {
    assert items[..|items|] == items;
  }

  /** A worker is looked up only when `worker_id` is present and truthy (0 is not). */
  predicate NamesWorker(req: TaskRequest) {
    req.workerId.Some? && req.workerId.value != 0
  }

  /** `create_task` on a valid request, `users` being the ids of the stored
      users: an unknown creator, or a named worker that is unknown, is answered
      with 404 before anything is created; otherwise the created task holds the laid-out
      items. */
  method CreateTask(users: set<int>, req: TaskRequest) returns (resp: Response)
    ensures req.creatorId !in users ==> resp == NotFound("Creator not found")
    ensures req.creatorId in users && NamesWorker(req) && req.workerId.value !in users ==>
              resp == NotFound("Worker not found")
    ensures resp.Created? <==> req.creatorId in users && (NamesWorker(req) ==> req.workerId.value in users)
    ensures resp.Created? ==>
      && resp.task.creatorId == req.creatorId
      && resp.task.workerId == (if NamesWorker(req) then req.workerId else None)
      && resp.task.spaceInfo.AsDict() == req.space
      && |resp.task.items| == |req.items|
      && forall i :: 0 <= i < |req.items| ==> resp.task.items[i] == StoredItem(req.items, i)
  {
    if req.creatorId !in users {
      return NotFound("Creator not found");
    }
    var worker: Option<int> := None;
    if NamesWorker(req) {
      if req.workerId.value !in users {
        return NotFound("Worker not found");
      }
      worker := req.workerId;
    }
    var placed := PlaceItems(req.items);
    return Created(Task(req.creatorId, worker, SpaceInfo(req.space.x, req.space.y, req.space.z), placed));
  }

  /** The keywords `create_task` passes to `Task.objects.create`. */
  const TaskCreateKeywords: set<string> := {"creator", "worker", "space_x", "space_y", "space_z"}

  /** The keywords `create_task` passes to `Item.objects.create`. */
  const ItemCreateKeywords: set<string> :=
    {"task", "order_id", "name", "position_x", "position_y", "position_z",
     "width", "height", "depth", "face_up", "fragile"}

  /** A model constructor raises on a keyword that is not one of its names. */
  predicate KeywordsAccepted(names: set<string>, keywords: set<string>) {
    keywords <= names
  }

  /** Neither create call of `create_task` matches its model: `Task` has a
      `space_info` record and no `space_x`, and `Item` has `item_id` and no
      `order_id`. */
  lemma CreateKeywordsRejected()
    ensures !KeywordsAccepted(TaskFieldNames, TaskCreateKeywords)
    ensures !KeywordsAccepted(ItemFieldNames, ItemCreateKeywords)
  {
    assert "space_x" in TaskCreateKeywords && "space_x" !in TaskFieldNames;
    assert "order_id" in ItemCreateKeywords && "order_id" !in ItemFieldNames;
  }

  /** `create_task` with the create calls as written: once both lookups pass,
      `Task.objects.create` raises, so no request ever yields a task. */
  method CreateTaskAsWritten(users: set<int>, req: TaskRequest) returns (resp: Response)
    ensures req.creatorId !in users ==> resp == NotFound("Creator not found")
    ensures req.creatorId in users && NamesWorker(req) && req.workerId.value !in users ==>
              resp == NotFound("Worker not found")
    ensures req.creatorId in users && (NamesWorker(req) ==> req.workerId.value in users) ==>
              resp == ServerError
    ensures !resp.Created?
  {
    if req.creatorId !in users {
      return NotFound("Creator not found");
    }
    var worker: Option<int> := None;
    if NamesWorker(req) {
      if req.workerId.value !in users {
        return NotFound("Worker not found");
      }
      worker := req.workerId;
    }
    CreateKeywordsRejected();
    var taskAccepted := KeywordsAccepted(TaskFieldNames, TaskCreateKeywords);
    var itemsAccepted := req.items == [] || KeywordsAccepted(ItemFieldNames, ItemCreateKeywords);
    var placed := PlaceItems(req.items);
    resp := if taskAccepted && itemsAccepted
            then Created(Task(req.creatorId, worker, SpaceInfo(req.space.x, req.space.y, req.space.z), placed))
            else ServerError;
  }
}
