# Box packing: a Dafny model of the editors, the item manager, the worker console and the backend layout

This project models the non-rendering logic of the BOX_P box-packing
application. The application has a React front end (`box_show`) and a Django
back end (`box_back`). The model covers five parts:

- **Placement editor** (`two.js`, module `PlacementEditor`). It stores typed coordinates,
  dimension texts and a container size, applies the input guards, and on "add cube" accepts
  a cube only when it intersects no cube already placed.
- **Older placement editor** (`back.js`, module `BasicEditor`). It has numeric inputs with
  sign checks only, and an add path guarded only by the overlap test.
- **Manager item list** (`mg.js`, module `ItemManager`). It covers zero-padded item ids,
  adding and deleting items, the container settings and their "apply" check, and the
  blank-name check before AI assignment.
- **Worker console** (`wk.js`, module `WorkerConsole`). It maps API items to display
  records, steps through them with Next / Previous / select, keeps a duplicate-free list of
  shown items, and filters the current layer.
- **Backend task creation** (`views.py` and `models.py`, modules `TaskLayout` and
  `ItemRecords`). It looks up the creator and worker, lays the items flush along x and
  numbers them 1..n, and stores and projects the item records.

Shared modules:

- `Geometry`: vectors, cubes, the open-interval overlap test and its scanning loop
  `IsSpaceAvailable`.
- `ColorPicker`: the retry loop of `getRandomColor`.
- `JsValues`: the JavaScript value operations the handlers use. These are `parseFloat`,
  `x || d` on numbers, `trim`, `startsWith`, `padStart` and the dimension regular
  expression.
- `Digits`: positional notation.
- `Wrappers`: `Option` and `Result`.

Each React handler is an immediate state transition on a class whose fields are the
component's state. Handlers are `method`s with `modifies this`, and their postconditions
give the whole new state in terms of the old one. Read-only loops (`isSpaceAvailable`,
the colour retry loop, the backend placement loop) are methods with loop invariants,
proved against specification functions. Pure expressions (id generation, the item
mapping, the layer filter, the model getters) are functions with lemmas.

Numbers are exact reals. A JavaScript number is `Num`, which is `Finite(v)` or `NaN`.
`Math.random()` is replaced by a parameter `draws: seq<nat>` of random draws. User ids
known to the backend are a parameter `users: set<int>`.

## Model

| member | source | states |
|---|---|---|
| Geometry.IsSpaceAvailable | box_show/src/box/two.js:40-54 | The answer is true exactly when no existing cube intersects the candidate on x, y and z at once (all six strict comparisons). It is true for an empty list. The loop invariant says every cube scanned so far misses the candidate. back.js:28-42 is the same loop. |
| Geometry.FaceContactIsNoOverlap | box_show/src/box/two.js:43-48 | The comparisons are strict, so two cubes that only share a face on some axis are not reported as intersecting. |
| Geometry.SharedInteriorPointIntersects | box_show/src/box/two.js:43-48 | Two cubes that share an interior point are reported as intersecting, so the test is sound for real overlaps. |
| Geometry.IntersectsSymmetric | box_show/src/box/two.js:43-48 | The test gives the same answer with candidate and existing cube swapped. |
| Geometry.IntersectsIffSharedPoint | box_show/src/box/two.js:43-48 | For cubes with positive extents, `Intersects` (the six strict comparisons) holds exactly when the two cubes have a common interior point. This is the test's independent meaning. |
| Geometry.AppendClearKeepsDisjoint | box_show/src/box/two.js:873-874 | Appending a cube that passed the test to a pairwise-disjoint list keeps the list pairwise disjoint. |
| Geometry.Vec3.With | box_show/src/box/two.js:488-491 | Setting one axis, as the `[axis]: value` updates do, gives that axis the new value and keeps the other two. |
| ColorPicker.PickColor | box_show/src/box/two.js:31-38 | The do-while loop returns the hex form of the first draw whose colour is not in the set. The colour is fresh and every earlier draw was already used. back.js:18-25 is the same loop. |
| ColorPicker.HexColor | box_show/src/box/two.js:34 | `n.toString(16)` is a non-empty string of hexadecimal digits. |
| PlacementEditor.Editor.constructor | box_show/src/box/two.js:20-27 | Initial state: position (0,0,0), dimensions 1,1,1, no cubes, container 10×10×10, empty colour set. |
| PlacementEditor.Editor.ChangeSpaceSize | box_show/src/box/two.js:485-492 | Only a value that parses to a number above 0 is stored, and only on the named axis. Nothing else changes. |
| PlacementEditor.Editor.ChangeCoordinate | box_show/src/box/two.js:501-515 | Input that is not numeric reads as 0. The value is stored on the named axis only if it is at least 0 and the value plus that axis's dimension fits in the container. |
| PlacementEditor.Editor.ChangeDimension | box_show/src/box/two.js:517-543 | The typed text is stored on the named axis exactly when `DimensionTextAccepted` holds. Nothing else changes. |
| PlacementEditor.DimensionTextAccepted | box_show/src/box/two.js:518-542 | A dimension text is accepted if and only if it is `''`, `'.'`, `'0.'` or starts with `'0.'`, or it matches `^[0-9]*\.?[0-9]*$` and parses to a value in (0, container size]. The NaN branch of the handler cannot be reached by a text that matches the pattern and is not a partial input. |
| PlacementEditor.Editor.GetRandomColor | box_show/src/box/two.js:31-38 | Returns `#` plus a colour that was not in `colorSet`. Afterwards `colorSet` is the old set plus that colour. |
| PlacementEditor.Editor.AddCube | box_show/src/box/two.js:862-897 | The cube takes the current position and dimensions and a fresh colour. It is appended exactly when the overlap test passes, and the list is unchanged otherwise. The invariant "placed cubes are pairwise disjoint" is preserved. |
| PlacementEditor.BoundsGapScenario | box_show/src/box/two.js:501-542 | Coordinates are bounded by the current dimension, but dimensions only by the container. So position x = 5 then width 9 in a 10-wide container gives an accepted cube that ends outside the container. |
| BasicEditor.Editor.constructor | box_show/src/box/back.js:12-15 | Initial state: position (0,0,0), dimensions 1,1,1, no cubes, empty colour set. |
| BasicEditor.Editor.ChangeCoordinate | box_show/src/box/back.js:402-410 | Input that is not numeric reads as 0. Any value of at least 0 is stored on the named axis, with no upper bound. Negative values are ignored. |
| BasicEditor.Editor.ChangeDimension | box_show/src/box/back.js:412-420 | A value is stored on the named axis only if it parses to a number above 0. Input that is not numeric, zero or negative leaves the dimensions as they were. |
| BasicEditor.Editor.GetRandomColor | box_show/src/box/back.js:18-25 | Returns `#` plus a colour absent from `colorSet` before the call and present after it. |
| BasicEditor.Editor.AddCube | box_show/src/box/back.js:505-538 | The cube is appended exactly when the overlap test passes. There is no container check on this path. Pairwise disjointness is preserved. |
| ItemManager.GenerateItemId | box_show/src/box/mg.js:71-74 | The id starts with "item". Its digit part is as long as `count + 1` in decimal, or 4 when that is shorter, so it is padded and never truncated. |
| ItemManager.GeneratedIdDigits | box_show/src/box/mg.js:72-73 | The part after "item" is all decimal digits and denotes `count + 1`. |
| ItemManager.GeneratedIdParses | box_show/src/box/mg.js:72-73 | `parseFloat` of the part after "item" gives back `count + 1`. |
| ItemManager.GeneratedIdsDistinct | box_show/src/box/mg.js:71-74 | Different list lengths give different ids. |
| ItemManager.IdReusedAfterDelete | box_show/src/box/mg.js:72 | Ids are not unique. With ids generated in order, deleting the first item makes the next generated id equal to the id of the last item, which is still in the list. |
| ItemManager.RemoveIdMembers | box_show/src/box/mg.js:138-139 | An item survives the delete filter exactly when it was in the list and has a different id. |
| ItemManager.RemoveIdAppend | box_show/src/box/mg.js:138-139 | The delete filter works piecewise over a concatenation, so the surviving items keep their order. |
| ItemManager.RemoveAbsentId | box_show/src/box/mg.js:138-139 | Deleting an id that no item has leaves the list unchanged. |
| ItemManager.RemoveIdCounts | box_show/src/box/mg.js:139 | `RemoveId`: an item with the deleted id does not occur in the result, and any other item occurs exactly as often as in the list. |
| ItemManager.Exceeding | box_show/src/box/mg.js:160-164 | The offending items are exactly the listed items with some dimension larger than the container's. A NaN dimension is never larger. |
| ItemManager.ExceedingCounts | box_show/src/box/mg.js:160-170 | Each too-large item occurs in the filtered list as often as in the item list, and other items not at all. So the reported `length` counts the offending entries with repetition. |
| ItemManager.ExceedingAppend | box_show/src/box/mg.js:160-164 | The filter works piecewise over a concatenation, so the offending items keep the list order. |
| ItemManager.Manager.constructor | box_show/src/box/mg.js:34-68 | Initial state: empty form, no items, container 10×10×10, dialog closed, snackbar closed, empty worker name. |
| ItemManager.Manager.ChangeDimensionInput | box_show/src/box/mg.js:77-83 | Only the named text field of the form changes. Every other field is unchanged. |
| ItemManager.Manager.ChangeFlagInput | box_show/src/box/mg.js:77-83 | Only the named check box of the form changes. Every other field is unchanged. |
| ItemManager.Manager.AddItem | box_show/src/box/mg.js:86-135 | It accepts exactly when all three texts are non-empty and no parsed dimension exceeds the container. On success it appends exactly one item with the generated id, the parsed dimensions and the form's flags, clears the form and reports success. Otherwise the items and the form are unchanged and the matching error is shown. |
| ItemManager.Manager.DeleteItem | box_show/src/box/mg.js:138-146 | The list becomes the filter that removes every item with that id, and the snackbar reports the removal. The form, the settings, the dialog state, the worker name and the processing flag are unchanged. |
| ItemManager.Manager.ChangeSetting | box_show/src/box/mg.js:149-155 | Only the named container size changes. It becomes the parsed value, or 10 when that is NaN or 0. Every other field is unchanged. |
| ItemManager.Manager.ApplySettings | box_show/src/box/mg.js:158-181 | It succeeds (the dialog closes) if and only if no item is larger than the container on some axis. Otherwise it reports the length of `Exceeding`, the number of offending entries by `ExceedingCounts`. Items, settings, form, worker name and processing flag are unchanged either way. |
| ItemManager.Manager.ChangeWorkerName | box_show/src/box/mg.js:57 | Only the worker name changes. Every other field is unchanged. |
| ItemManager.Manager.AiAssign | box_show/src/box/mg.js:189-197 | Processing starts if and only if the worker name is not empty and not only white space. Otherwise an error is shown and nothing else changes. The items, form, settings, dialog state and name are unchanged either way. |
| JsValues.TrimEmptyIffAllSpace | box_show/src/box/mg.js:190 | `trim()` gives the empty string if and only if every character is JavaScript white space. |
| JsValues.TrimMeaning | box_show/src/box/mg.js:190 | `trim()` keeps a contiguous piece of the text, drops only white space before and after it, and the piece neither starts nor ends with white space. |
| JsValues.ParseFloatOfDecimal | box_show/src/box/mg.js:73 | `parseFloat` reads back the decimal form of a natural number, with or without leading zeros. |
| JsValues.ParseFloatOfDigits | box_show/src/box/two.js:530 | A non-empty digit string parses to its own value. |
| JsValues.DecimalPatternMeaning | box_show/src/box/two.js:526 | The dimension pattern holds if and only if the text is all digits, or is digits, one point, digits. |
| JsValues.PatternParsesNonNegative | box_show/src/box/two.js:526-536 | A text the pattern accepts that holds a digit parses to a finite number of at least 0. |
| JsValues.ParseFloatNeedsDigit | box_show/src/box/mg.js:98-100 | `parseFloat` of a text without any decimal digit is NaN, so such a dimension never exceeds the container. |
| JsValues.PadStartZeros | box_show/src/box/mg.js:73 | `padStart(width, '0')` gives length max(len, width) and only adds leading zeros. |
| Digits.DigitsRoundTrip | box_show/src/box/mg.js:73 | Reading back the digits of `n.toString(base)` gives `n`. |
| Digits.NatToDigits | box_show/src/box/mg.js:73 | `n.toString(base)` is a non-empty string of digits of that base. It starts with '0' exactly when n is 0, so there is no leading zero. |
| Digits.NatToDigitsInjective | box_show/src/box/wk.js:113 | Different numbers have different decimal forms. |
| Digits.LeadingZeros | box_show/src/box/mg.js:73 | Leading zeros do not change the value of a digit string. |
| WorkerConsole.PaletteColor | box_show/src/box/wk.js:92-98 | For an id of at least 0 the colour is `colors[id mod 8]`. Any colour returned is one of the eight palette entries. There is no colour exactly when the id is negative and not a multiple of 8. A negative multiple of 8 gives the remainder -0, which indexes the first colour. |
| WorkerConsole.JsRem | box_show/src/box/wk.js:97 | JavaScript's `%` lies strictly between -b and b and agrees with the mathematical remainder for a dividend of at least 0. |
| WorkerConsole.MapItemsInjective | box_show/src/box/wk.js:112-126 | `task.items.map(...)` loses nothing: two task item lists with the same display list are equal. |
| WorkerConsole.ToDisplayInjective | box_show/src/box/wk.js:112-126 | The display record loses nothing. The id "item" + order_id, the renamed sizes and position, and the labels determine the API item. |
| WorkerConsole.DisplayIdParses | box_show/src/box/wk.js:113 | The id starts with "item", and the rest parses back to the order number. |
| WorkerConsole.IntToStringInjective | box_show/src/box/wk.js:113 | `String(n)` is injective on integers. |
| WorkerConsole.ConstraintLabels | box_show/src/box/wk.js:121-124 | 'Face Up' is present if and only if face_up, and 'Fragile' if and only if fragile, in that order. The length is the number of flags set. |
| WorkerConsole.ToDisplay | box_show/src/box/wk.js:112-126 | The display record's id starts with "item". The name, sizes and position are copied from the API item. 'Face Up' is a label exactly when face_up, 'Fragile' exactly when fragile. A colour, when present, is a palette entry. |
| WorkerConsole.LayerFilter | box_show/src/box/wk.js:369-372 | Every shown item lies within 0.01 of the layer height or is the selected item. |
| WorkerConsole.LayerFilterMembers | box_show/src/box/wk.js:771-774 | An item is shown exactly when it is listed and is on the layer or selected. |
| WorkerConsole.LayerFilterAppend | box_show/src/box/wk.js:771-774 | The filter works piecewise, so the shown items keep list order. |
| WorkerConsole.SelectedAlwaysShown | box_show/src/box/wk.js:773 | The selected item is shown whatever the layer height. |
| WorkerConsole.PlaceOnce | box_show/src/box/wk.js:692-852 | After showing an item its id is among `placedItems`. No entry is dropped, and one entry is added exactly when the id was not there yet. |
| WorkerConsole.PlaceOnceKeepsUnique | box_show/src/box/wk.js:850-852 | Recording an item keeps `placedItems` free of duplicate ids. |
| WorkerConsole.Console.constructor | box_show/src/box/wk.js:51-56 | Initial state: index -1, no items, container 10×10×10, nothing placed, layer 0, no task. |
| WorkerConsole.Console.NoCurrentItemMeansUnstarted | box_show/src/box/wk.js:1077-1079 | Under the invariant, there is no current item exactly when the index is -1. |
| WorkerConsole.Console.SelectTask | box_show/src/box/wk.js:101-132 | The container comes from `space_info` and the list is the mapped items. The index becomes -1, the placed list empty and the layer 0. |
| WorkerConsole.Console.AddOrHighlight | box_show/src/box/wk.js:688-853 | The layer becomes the item's height and the item is recorded once. The top view is the layer filter for the layer height the handler was created with. |
| WorkerConsole.Console.NextItem | box_show/src/box/wk.js:1031-1039 | The index moves up by exactly 1 only when the result stays below the length, and otherwise nothing changes. The index stays in [-1, length-1]. |
| WorkerConsole.Console.PreviousItem | box_show/src/box/wk.js:1042-1050 | The index moves down by exactly 1 only when the result stays at least 0, and otherwise nothing changes. |
| WorkerConsole.Console.SelectItem | box_show/src/box/wk.js:1053-1057 | The index becomes the chosen position, and the item is shown and recorded as by `AddOrHighlight`. |
| TaskLayout.PlaceItems | box_back/box_back/box_back/app/views.py:167-208 | Item i gets order number i + 1, x position equal to the sum of the widths of items 0..i-1 (y = z = 0), the requested sizes, and flags that default to false. The loop invariant ties the running `current_x` to that prefix sum. |
| TaskLayout.StoredItem | box_back/box_back/box_back/app/views.py:196-207 | The record for item i has order number i + 1 and the requested name. Read back through `position`, `dimensions` and `special_properties`, it gives the position (sum of the earlier widths, 0, 0), the requested size, and a label for a flag exactly when that flag was given as true. |
| TaskLayout.LayoutFlush | box_back/box_back/box_back/app/views.py:176-183 | Each item starts where the previous one ends. |
| TaskLayout.WidthSumMonotone | box_back/box_back/box_back/app/views.py:183 | With widths of at least 0, a later item starts no earlier than an earlier one ends. |
| TaskLayout.LayoutNoOverlap | box_back/box_back/box_back/app/views.py:176-183 | With widths of at least 0, no two laid-out items overlap under the editors' strict test. |
| TaskLayout.LayoutIgnoresContainer | box_back/box_back/box_back/app/views.py:157-183 | The last item ends at the total width whatever the container size, so the layout may extend beyond the container. |
| TaskLayout.CreateTask | box_back/box_back/box_back/app/views.py:129-211 | An unknown creator gives "Creator not found". A worker id that is present and truthy but unknown gives "Worker not found". Otherwise the created task has the creator, the worker (none for an absent or 0 id), the space and the laid-out items. No task exists on an error path. |
| TaskLayout.CreateKeywordsRejected | box_back/box_back/box_back/app/views.py:157-163 | `Task.objects.create` is passed `space_x`, which the `Task` model does not declare. `Item.objects.create` is passed `order_id`, which the `Item` model does not declare. |
| TaskLayout.CreateTaskAsWritten | box_back/box_back/box_back/app/views.py:137-163 | With the create calls as written, the same 404s happen, and once both lookups pass the ORM raises, so no request ever yields a task. |
| ItemRecords.Item.SpecialProperties | box_back/box_back/box_back/app/models.py:67-74 | "Face Up" is present if and only if face_up, and "Fragile (Top Layer)" if and only if fragile, in that order. The length is the number of flags set. |
| ItemRecords.FlagOrDefault | box_back/box_back/box_back/app/models.py:50-51 | A flag is stored as true exactly when an explicit true was given. The default is false. |
| ItemRecords.SpaceInfoRoundTrip | box_back/box_back/box_back/app/models.py:30-32 | `SpaceInfo.AsDict` (`as_dict`) returns the x, y and z the record was stored with. |
| ItemRecords.ProjectionsDetermineGeometry | box_back/box_back/box_back/app/models.py:59-65 | `Item.Position` and `Item.Dimensions` (`position`, `dimensions`) together determine all six geometric fields. |

## Findings

| source | as written | input that shows it | evidently intended | confidence | as-written member | corrected member |
|---|---|---|---|---|---|---|
| box_back/box_back/box_back/app/views.py:157-163, 196-208 | `create_task` passes `space_x`/`space_y`/`space_z` to `Task.objects.create` and `order_id` to `Item.objects.create`. The models (models.py:34-51, 76-85) declare `space_info` and `item_id` instead, and a Django model constructor raises on a keyword it does not know. | Any valid request whose creator exists, and whose worker is absent or exists: creating the `Task` row raises and the request ends in a server error. | The space is stored as a `SpaceInfo` record, and the order number goes into the item record, so a task with the laid-out items is returned. | high (not executed) | TaskLayout.CreateTaskAsWritten | TaskLayout.CreateTask |

## Left out

- Rendering is not modelled: three.js scene building (axes, grids, labels, lights, meshes), camera orbit and zoom, fullscreen and resize glue, and timers. It is drawing and DOM work in libraries outside this model.
- Network and storage I/O are not modelled: `fetch`, `localStorage`, REST responses and password hashing. The backend user table is the parameter `users`. Only the lookups and the layout loop of `create_task` are modelled, not the ORM.
- `TaskInputSerializer` and `TaskSerializer` are not part of this model. The request is taken as already validated, so the 400 path is absent and the 201 body is the `Task` value, not its serialized form.
- The other views in views.py (`register_user`, `get_task`, `get_user_tasks`, `get_worker_tasks`) are not modelled.
- The AI dialog's simulated processing after the name check (mg.js:199-218) is not modelled. It is timer-driven progress with no state the rest depends on.
- `Math.random()` is replaced by a sequence of draws. `PickColor` and both `GetRandomColor` methods require that some draw gives a fresh colour, because otherwise the source loops forever. Draws are not bounded by 16777215.
- PlacementEditor.Editor.GetRandomColor: the source creates `colorSet` afresh on every render (two.js:27, back.js:15), so freshness in the source holds only within one render. The model keeps one set for the editor's lifetime.
- BasicEditor.Editor.GetRandomColor: the same holds for back.js, whose `colorSet` is also created afresh on every render.
- JsValues.ParseFloat: reads leading JavaScript white space, an optional sign, digits, an optional point and digits, taking the longest such prefix. Exponents, `Infinity` and the numeric-separator rules are not modelled.
- PlacementEditor.DimValue: two.js stores the dimension texts, and in JavaScript `number + text` concatenates strings (two.js:44-48, 504-506). The model reads a stored text with `parseFloat`, with NaN read as 0, before adding.
- IEEE 754 rounding is not modelled. Sums, the 0.01 layer tolerance and comparisons are exact real arithmetic, and -0 is not distinguished from 0.
- React's batching of state updates is not modelled. Each handler is an immediate transition. The one stale closure that matters, `addOrHighlightItem` filtering by the layer height it was created with (wk.js:695 against 772), is an explicit parameter of `AddOrHighlight`.
- WorkerConsole.Console.AddOrHighlight: does not model the early return when the scenes are not mounted, or the mesh and camera updates of wk.js:696-849.
- Item records keep the order number in `Item.orderId`. models.py declares that column as the character field `item_id`, and views.py passes `order_id` (see Findings).
- TaskLayout.LayoutNoOverlap: assumes widths of at least 0. The request serializer that would enforce this is not part of this model.
