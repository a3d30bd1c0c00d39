/** The manager's item list (box_show/src/box/mg.js): a form for a new item,
    the list of items with generated ids, the container settings and the
    worker-assignment dialog's name check. */
module ItemManager {
  import opened Geometry
  import opened JsValues
  import opened Digits

  /** The new-item form: dimension texts as typed, and the two check boxes. */
  datatype ItemForm = ItemForm(width: string, height: string, depth: string, faceUp: bool, fragile: bool)

  const EmptyForm := ItemForm("", "", "", false, false)

  /** A listed item; its dimensions are `parseFloat` of the form's texts. */
  datatype ManagedItem = ManagedItem(id: string, width: Num, height: Num, depth: Num, faceUp: bool, fragile: bool)

  datatype Severity = Info | Success | Error

  datatype Snackbar = Snackbar(open: bool, message: string, severity: Severity)

  datatype Flag = FaceUp | Fragile

  /** `generateItemId` for a list of `count` items: "item" followed by
      `count + 1` in decimal, left-padded with zeros to at least four digits. */
  function GenerateItemId(count: nat): (id: string)
    ensures |id| >= 8 && id[..4] == "item"
    ensures |id| - 4 == if |NatToDecimal(count + 1)| >= 4 then |NatToDecimal(count + 1)| else 4
  {
    "item" + PadStartZeros(NatToDecimal(count + 1), 4)
  }

  /** The part after "item" is all decimal digits and stands for `count + 1`. */
  lemma GeneratedIdDigits(count: nat)
    ensures AllDigits(GenerateItemId(count)[4..], 10)
    ensures DigitsToNat(GenerateItemId(count)[4..], 10) == count + 1
  {
    var digits := NatToDecimal(count + 1);
    var suffix := PadStartZeros(digits, 4);
    assert GenerateItemId(count)[4..] == suffix;
    LeadingZeros(|suffix| - |digits|, digits, 10);
    DigitsRoundTrip(count + 1, 10);
  }

  /** The numeric part of a generated id parses back to `count + 1`. */
  lemma GeneratedIdParses(count: nat)
    ensures ParseFloat(GenerateItemId(count)[4..]) == Finite((count + 1) as real)
  {
    var digits := NatToDecimal(count + 1);
    var suffix := PadStartZeros(digits, 4);
    assert GenerateItemId(count)[4..] == suffix;
    ParseFloatOfDecimal(|suffix| - |digits|, count + 1);
  }

  /** Different list lengths give different ids. */
  lemma GeneratedIdsDistinct(m: nat, n: nat)
    requires m != n
    ensures GenerateItemId(m) != GenerateItemId(n)
  {
    GeneratedIdDigits(m);
    GeneratedIdDigits(n);
  }

  /** An item some of whose dimensions is larger than the container's (a NaN
      dimension is never larger). */
  predicate ItemExceeds(it: ManagedItem, container: Vec3) {
    Exceeds(it.width, container.x) || Exceeds(it.height, container.y) || Exceeds(it.depth, container.z)
  }

  /** `items.filter(...)` of `handleApplySettings`: the items too large for the container. */
  function Exceeding(items: seq<ManagedItem>, container: Vec3): (r: seq<ManagedItem>)
    ensures |r| <= |items|
    ensures forall x :: x in r <==> x in items && ItemExceeds(x, container)
  {
    if items == [] then []
    else (if ItemExceeds(items[0], container) then [items[0]] else [])
         + Exceeding(items[1..], container)
  }

  /** Each item occurs in the result as often as in the list when it is too
      large, and not at all otherwise; so the result's length is the number of
      offending entries, counted with repetition. */
  lemma {:induction false} ExceedingCounts(items: seq<ManagedItem>, container: Vec3, x: ManagedItem)
    ensures multiset(Exceeding(items, container))[x] ==
            if ItemExceeds(x, container) then multiset(items)[x] else 0
    decreases |items|
  {
    if items != [] {
      ExceedingCounts(items[1..], container, x);
      assert items == [items[0]] + items[1..];
    }
  }

  /** The filter works piecewise, so the offending items keep the list order. */
  lemma {:induction false} ExceedingAppend(a: seq<ManagedItem>, b: seq<ManagedItem>, container: Vec3)
    ensures Exceeding(a + b, container) == Exceeding(a, container) + Exceeding(b, container)
    decreases |a|
  {
    if a == [] {
      assert a + b == b;
    } else {
      var head := if ItemExceeds(a[0], container) then [a[0]] else [];
      ExceedingAppend(a[1..], b, container);
      assert (a + b)[0] == a[0];
      assert (a + b)[1..] == a[1..] + b;
      assert head + (Exceeding(a[1..], container) + Exceeding(b, container))
          == (head + Exceeding(a[1..], container)) + Exceeding(b, container);
    }
  }

  /** `items.filter(item => item.id !== itemId)`. */
  function RemoveId(items: seq<ManagedItem>, id: string): (r: seq<ManagedItem>)
    ensures |r| <= |items|
  {
    if items == [] then []
    else (if items[0].id == id then [] else [items[0]]) + RemoveId(items[1..], id)
  }

  /** Exactly the items with a different id survive. */
  lemma {:induction false} RemoveIdMembers(items: seq<ManagedItem>, id: string, x: ManagedItem)
    ensures x in RemoveId(items, id) <==> x in items && x.id != id
    decreases |items|
  {
    if items != [] {
      RemoveIdMembers(items[1..], id, x);
      assert items == [items[0]] + items[1..];
    }
  }

  /** Each item with a different id occurs as often as in the list; an item
      with that id does not occur. */
  lemma {:induction false} RemoveIdCounts(items: seq<ManagedItem>, id: string, x: ManagedItem)
    ensures multiset(RemoveId(items, id))[x] == if x.id == id then 0 else multiset(items)[x]
    decreases |items|
  {
    if items != [] {
      RemoveIdCounts(items[1..], id, x);
      assert items == [items[0]] + items[1..];
    }
  }

  /** Removing from a list with a first item. */
  lemma RemoveIdCons(x: ManagedItem, rest: seq<ManagedItem>, id: string)
    ensures RemoveId([x] + rest, id) == (if x.id == id then [] else [x]) + RemoveId(rest, id)
  {
    assert ([x] + rest)[0] == x && ([x] + rest)[1..] == rest;
  }

  /** Removing works piecewise, so the surviving items keep their order. */
  lemma {:induction false} RemoveIdAppend(a: seq<ManagedItem>, b: seq<ManagedItem>, id: string)
    ensures RemoveId(a + b, id) == RemoveId(a, id) + RemoveId(b, id)
    decreases |a|
  {
    if a == [] {
      assert a + b == b;
    } else {
      var head := if a[0].id == id then [] else [a[0]];
      var rest := a[1..];
      assert a == [a[0]] + rest;
      assert a + b == [a[0]] + (rest + b);
      RemoveIdCons(a[0], rest + b, id);
      RemoveIdCons(a[0], rest, id);
      RemoveIdAppend(rest, b, id);
      assert head + (RemoveId(rest, id) + RemoveId(b, id)) == (head + RemoveId(rest, id)) + RemoveId(b, id);
    }
  }

  /** A list with no item of that id is left as it is. */
  lemma {:induction false} RemoveAbsentId(items: seq<ManagedItem>, id: string)
    requires forall i :: 0 <= i < |items| ==> items[i].id != id
    ensures RemoveId(items, id) == items
    decreases |items|
  {
    if items != [] {
      RemoveAbsentId(items[1..], id);
      assert items == [items[0]] + items[1..];
    }
  }

  /** Ids are not unique: in a list whose ids were generated in order,
      deleting the first item makes the next generated id equal to the id of
      the last item, which is still in the list. */
  lemma IdReusedAfterDelete(items: seq<ManagedItem>)
    requires |items| >= 2
    requires forall i :: 0 <= i < |items| ==> items[i].id == GenerateItemId(i)
    ensures items[|items| - 1] in RemoveId(items, items[0].id)
    ensures GenerateItemId(|RemoveId(items, items[0].id)|) == items[|items| - 1].id
  {
    var id := items[0].id;
    var rest := items[1..];
    forall i | 0 <= i < |rest| ensures rest[i].id != id {
      GeneratedIdsDistinct(0, i + 1);
    }
    RemoveAbsentId(rest, id);
    assert RemoveId(items, id) == RemoveId(rest, id);
    assert RemoveId(items, id) == rest;
    assert items[|items| - 1] == rest[|rest| - 1];
  }

  const MsgMissingDimensions := "Please enter all dimensions"
  const MsgTooLarge := "Item dimensions exceed container size"
  const MsgAdded := "Item added successfully"
  const MsgRemoved := "Item removed"
  const MsgSettingsUpdated := "Container settings updated"
  const MsgNoWorker := "Please enter a worker name"

  function ExceedMessage(count: nat): string {
    NatToDecimal(count) + " items exceed the new container size. Please remove these items first."
  }

  /** All three dimension texts are non-empty. */
  predicate FormComplete(f: ItemForm) {
    f.width != "" && f.height != "" && f.depth != ""
  }

  /** The item `handleAddItem` builds from the form when the list has `count` items. */
  function FormItem(f: ItemForm, count: nat): ManagedItem {
    ManagedItem(GenerateItemId(count), ParseFloat(f.width), ParseFloat(f.height), ParseFloat(f.depth),
                f.faceUp, f.fragile)
  }

  class Manager {
    var newItem: ItemForm
    var items: seq<ManagedItem>
    var containerSettings: Vec3
    var settingsOpen: bool
    var snackbar: Snackbar
    var workerName: string
    var aiProcessing: bool

    constructor ()
      ensures newItem == EmptyForm && items == [] && containerSettings == Vec3(10.0, 10.0, 10.0)
      ensures !settingsOpen && snackbar == Snackbar(false, "", Info)
      ensures workerName == "" && !aiProcessing
    {
      newItem := EmptyForm;
      items := [];
      containerSettings := Vec3(10.0, 10.0, 10.0);
      settingsOpen := false;
      snackbar := Snackbar(false, "", Info);
      workerName := "";
      aiProcessing := false;
    }

    /** `handleInputChange` for a dimension text field. */
    method ChangeDimensionInput(a: Axis, value: string)
      modifies this
      ensures newItem == match a
        case X => old(newItem).(width := value)
        case Y => old(newItem).(height := value)
        case Z => old(newItem).(depth := value)
      ensures items == old(items) && containerSettings == old(containerSettings) && settingsOpen == old(settingsOpen)
      ensures snackbar == old(snackbar) && workerName == old(workerName) && aiProcessing == old(aiProcessing)
    {
      match a
      case X => newItem := newItem.(width := value);
      case Y => newItem := newItem.(height := value);
      case Z => newItem := newItem.(depth := value);
    }

    /** `handleInputChange` for a check box. */
    method ChangeFlagInput(f: Flag, checked: bool)
      modifies this
      ensures newItem == match f
        case FaceUp => old(newItem).(faceUp := checked)
        case Fragile => old(newItem).(fragile := checked)
      ensures items == old(items) && containerSettings == old(containerSettings) && settingsOpen == old(settingsOpen)
      ensures snackbar == old(snackbar) && workerName == old(workerName) && aiProcessing == old(aiProcessing)
    {
      match f
      case FaceUp => newItem := newItem.(faceUp := checked);
      case Fragile => newItem := newItem.(fragile := checked);
    }

    /** `handleAddItem`: an empty dimension text, or a dimension larger than
        the container's, is reported and changes nothing else; otherwise one
        item with the generated id, the parsed dimensions and the form's flags
        is appended and the form is cleared. */
    method AddItem() returns (added: bool)
      modifies this
      ensures added <==> FormComplete(old(newItem)) && !ItemExceeds(FormItem(old(newItem), |old(items)|), containerSettings)
      ensures added ==> items == old(items) + [FormItem(old(newItem), |old(items)|)]
                        && newItem == EmptyForm && snackbar == Snackbar(true, MsgAdded, Success)
      ensures !FormComplete(old(newItem)) ==> snackbar == Snackbar(true, MsgMissingDimensions, Error)
      ensures FormComplete(old(newItem)) && !added ==> snackbar == Snackbar(true, MsgTooLarge, Error)
      ensures !added ==> items == old(items) && newItem == old(newItem)
      ensures containerSettings == old(containerSettings) && settingsOpen == old(settingsOpen)
      ensures workerName == old(workerName) && aiProcessing == old(aiProcessing)
    {
      if !FormComplete(newItem) {
        snackbar := Snackbar(true, MsgMissingDimensions, Error);
        return false;
      }
      var item := FormItem(newItem, |items|);
      if ItemExceeds(item, containerSettings) {
        snackbar := Snackbar(true, MsgTooLarge, Error);
        return false;
      }
      items := items + [item];
      newItem := EmptyForm;
      snackbar := Snackbar(true, MsgAdded, Success);
      return true;
    }

    /** `handleDeleteItem`: every item with that id goes, the rest stay in order. */
    method DeleteItem(id: string)
      modifies this
      ensures items == RemoveId(old(items), id)
      ensures snackbar == Snackbar(true, MsgRemoved, Info)
      ensures newItem == old(newItem) && containerSettings == old(containerSettings)
      ensures settingsOpen == old(settingsOpen) && workerName == old(workerName) && aiProcessing == old(aiProcessing)
    {
      items := RemoveId(items, id);
      snackbar := Snackbar(true, MsgRemoved, Info);
    }

    /** `handleSettingsChange`: the named container size takes the parsed
        value, or 10 when that is NaN or zero. */
    method ChangeSetting(a: Axis, value: string)
      modifies this
      ensures containerSettings == old(containerSettings).With(a, OrDefault(ParseFloat(value), 10.0))
      ensures items == old(items) && newItem == old(newItem) && settingsOpen == old(settingsOpen)
      ensures snackbar == old(snackbar) && workerName == old(workerName) && aiProcessing == old(aiProcessing)
    {
      containerSettings := containerSettings.With(a, OrDefault(ParseFloat(value), 10.0));
    }

    /** `handleApplySettings`: closes the dialog exactly when no item is larger
        than the container, and otherwise reports how many are; the items and
        the settings stay as they are either way. */
    method ApplySettings() returns (applied: bool)
      modifies this
      ensures applied <==> forall i :: 0 <= i < |items| ==> !ItemExceeds(items[i], containerSettings)
      ensures applied ==> !settingsOpen && snackbar == Snackbar(true, MsgSettingsUpdated, Success)
      ensures !applied ==> (settingsOpen == old(settingsOpen)
        && snackbar == Snackbar(true, ExceedMessage(|Exceeding(items, containerSettings)|), Error))
      ensures items == old(items) && containerSettings == old(containerSettings) && newItem == old(newItem)
      ensures workerName == old(workerName) && aiProcessing == old(aiProcessing)
    {
      var offending := Exceeding(items, containerSettings);
      if |offending| > 0 {
        snackbar := Snackbar(true, ExceedMessage(|offending|), Error);
        assert offending[0] in items;
        return false;
      }
      settingsOpen := false;
      snackbar := Snackbar(true, MsgSettingsUpdated, Success);
      return true;
    }

    /** The worker-name text field. */
    method ChangeWorkerName(name: string)
      modifies this
      ensures workerName == name
      ensures items == old(items) && newItem == old(newItem) && containerSettings == old(containerSettings)
      ensures settingsOpen == old(settingsOpen) && snackbar == old(snackbar) && aiProcessing == old(aiProcessing)
    {
      workerName := name;
    }

    /** `handleAiAssign`: a name that is empty or only white space is refused;
        otherwise processing starts. */
    method AiAssign() returns (started: bool)
      modifies this
      ensures started <==> !AllSpace(workerName)
      ensures started ==> aiProcessing && snackbar == old(snackbar)
      ensures !started ==> aiProcessing == old(aiProcessing) && snackbar == Snackbar(true, MsgNoWorker, Error)
      ensures items == old(items) && workerName == old(workerName) && newItem == old(newItem)
      ensures containerSettings == old(containerSettings) && settingsOpen == old(settingsOpen)
    {
      TrimEmptyIffAllSpace(workerName);
      if Trim(workerName) == [] {
        snackbar := Snackbar(true, MsgNoWorker, Error);
        return false;
      }
      aiProcessing := true;
      return true;
    }
  }
}
