/** The older placement editor (box_show/src/box/back.js): numeric position
    and dimension inputs with sign checks only, and "add cube" guarded by the
    overlap test alone. */
module BasicEditor {
  import opened Geometry
  import opened JsValues
  import opened ColorPicker

  class Editor {
    var coordinates: Vec3
    var dimensions: Vec3
    var cubes: seq<Cube>
    var colorSet: set<string>

    /** The placed cubes never intersect one another. */
    ghost predicate Valid()
      reads this
    {
      PairwiseDisjoint(cubes)
    }

    constructor ()
      ensures Valid()
      ensures coordinates == Vec3(0.0, 0.0, 0.0) && dimensions == Vec3(1.0, 1.0, 1.0)
      ensures cubes == [] && colorSet == {}
    {
      coordinates := Vec3(0.0, 0.0, 0.0);
      dimensions := Vec3(1.0, 1.0, 1.0);
      cubes := [];
      colorSet := {};
    }

    /** `handleCoordinateChange`: non-numeric input reads as 0; any value that
        is not negative is stored, with no upper bound, on the named axis only. */
    method ChangeCoordinate(a: Axis, value: string)
      modifies this
      ensures var n := OrDefault(ParseFloat(value), 0.0);
        coordinates == if n >= 0.0 then old(coordinates).With(a, n) else old(coordinates)
      ensures dimensions == old(dimensions) && cubes == old(cubes) && colorSet == old(colorSet)
    {
      var n := OrDefault(ParseFloat(value), 0.0);
      if n >= 0.0 {
        coordinates := coordinates.With(a, n);
      }
    }

    /** `handleDimensionChange`: stores the value on the named axis only if it
        parses to a number above zero. */
    method ChangeDimension(a: Axis, value: string)
      modifies this
      ensures var n := OrDefault(ParseFloat(value), 0.0);
        dimensions == if n > 0.0 then old(dimensions).With(a, n) else old(dimensions)
      ensures coordinates == old(coordinates) && cubes == old(cubes) && colorSet == old(colorSet)
    {
      var n := OrDefault(ParseFloat(value), 0.0);
      if n > 0.0 {
        dimensions := dimensions.With(a, n);
      }
    }

    /** `getRandomColor`: a colour not yet in `colorSet`, which then holds it. */
    method GetRandomColor(draws: seq<nat>) returns (color: string)
      requires SomeFresh(colorSet, draws)
      modifies this
      ensures |color| >= 2 && color[0] == '#'
      ensures color[1..] !in old(colorSet) && colorSet == old(colorSet) + {color[1..]}
      ensures coordinates == old(coordinates) && dimensions == old(dimensions) && cubes == old(cubes)
    {
      var hex, _ := PickColor(colorSet, draws);
      colorSet := colorSet + {hex};
      color := "#" + hex;
      assert color[1..] == hex;
    }

    /** The "add cube" click: appended exactly when `IsSpaceAvailable` holds;
        there is no container check on this path. */
    method AddCube(draws: seq<nat>) returns (cube: Cube, added: bool)
      requires Valid() && SomeFresh(colorSet, draws)
      modifies this
      ensures Valid()
      ensures cube.Corner() == old(coordinates) && cube.Size() == old(dimensions)
      ensures |cube.color| >= 2 && cube.color[0] == '#'
      ensures cube.color[1..] !in old(colorSet) && colorSet == old(colorSet) + {cube.color[1..]}
      ensures added <==> Clear(old(cubes), cube)
      ensures cubes == if added then old(cubes) + [cube] else old(cubes)
      ensures coordinates == old(coordinates) && dimensions == old(dimensions)
    {
      var color := GetRandomColor(draws);
      cube := Cube(coordinates.x, coordinates.y, coordinates.z,
                   dimensions.x, dimensions.y, dimensions.z, color);
      added := IsSpaceAvailable(cubes, cube);
      if added {
        AppendClearKeepsDisjoint(cubes, cube);
        cubes := cubes + [cube];
      }
    }
  }
}
