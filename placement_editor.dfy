/** The cube placement editor (box_show/src/box/two.js): the user types a
    position, dimensions and a container size, and "add cube" accepts the cube
    only when it intersects no cube already placed. */
module PlacementEditor {
  import opened Geometry
  import opened JsValues
  import opened ColorPicker
  import Digits

  /** The dimension inputs as the editor stores them: the text typed. */
  datatype DimTexts = DimTexts(width: string, height: string, depth: string) {
    function Get(a: Axis): string {
      match a
      case X => width
      case Y => height
      case Z => depth
    }

    function With(a: Axis, t: string): (r: DimTexts)
      ensures r.Get(a) == t
      ensures forall b :: b != a ==> r.Get(b) == Get(b)
    {
      match a
      case X => DimTexts(t, height, depth)
      case Y => DimTexts(width, t, depth)
      case Z => DimTexts(width, height, t)
    }
  }

  /** The number a stored dimension text stands for; a text that parses to
      NaN counts as 0. */
  function DimValue(t: string): real {
    match ParseFloat(t)
    case Finite(v) => v
    case NaN => 0.0
  }

  /** Partial inputs the dimension handler stores without any check. */
  predicate VerbatimDimension(t: string) {
    t == "" || t == "." || t == "0." || StartsWith(t, "0.")
  }

  /** The decision `handleDimensionChange` takes on a typed text, `limit` being
      the container size on the dimension's axis: accepted exactly when it is
      one of the partial inputs, or a plain decimal whose value lies in
      (0, limit]. */
  function DimensionTextAccepted(t: string, limit: real): (r: bool)
    ensures r <==> (VerbatimDimension(t) ||
                    (MatchesDecimalPattern(t) && ParseFloat(t).Finite? && 0.0 < ParseFloat(t).v <= limit))
  {
    if VerbatimDimension(t) then true
    else if !MatchesDecimalPattern(t) then false
    else
      PatternParsesNonNegative(t);
      match ParseFloat(t)
      case NaN => true
      case Finite(v) => !(v > limit) && !(v <= 0.0)
  }

  class Editor {
    var coordinates: Vec3
    var dimensions: DimTexts
    var cubes: seq<Cube>
    var spaceSize: Vec3
    var colorSet: set<string>

    /** The placed cubes never intersect one another. */
    ghost predicate Valid()
      reads this
    {
      PairwiseDisjoint(cubes)
    }

    /** The dimensions as numbers. */
    function Dimensions(): Vec3
      reads this
    {
      Vec3(DimValue(dimensions.width), DimValue(dimensions.height), DimValue(dimensions.depth))
    }

    constructor ()
      ensures Valid()
      ensures coordinates == Vec3(0.0, 0.0, 0.0) && dimensions == DimTexts("1", "1", "1")
      ensures cubes == [] && spaceSize == Vec3(10.0, 10.0, 10.0) && colorSet == {}
    {
      coordinates := Vec3(0.0, 0.0, 0.0);
      dimensions := DimTexts("1", "1", "1");
      cubes := [];
      spaceSize := Vec3(10.0, 10.0, 10.0);
      colorSet := {};
    }

    /** `handleSpaceSizeChange`: only a number above zero is stored, on the
        named axis only. */
    method ChangeSpaceSize(a: Axis, value: string)
      modifies this
      ensures var n := ParseFloat(value);
        spaceSize == if n.Finite? && n.v > 0.0 then old(spaceSize).With(a, n.v) else old(spaceSize)
      ensures coordinates == old(coordinates) && dimensions == old(dimensions)
      ensures cubes == old(cubes) && colorSet == old(colorSet)
    {
      var n := ParseFloat(value);
      if n.Finite? && n.v > 0.0 {
        spaceSize := spaceSize.With(a, n.v);
      }
    }

    /** `handleCoordinateChange`: non-numeric input reads as 0; the value is
        stored only if it is not negative and the cube still ends inside the
        container on that axis. */
    method ChangeCoordinate(a: Axis, value: string)
      modifies this
      ensures var n := OrDefault(ParseFloat(value), 0.0);
        coordinates == if 0.0 <= n && n + old(Dimensions()).Get(a) <= spaceSize.Get(a)
                       then old(coordinates).With(a, n) else old(coordinates)
      ensures dimensions == old(dimensions) && spaceSize == old(spaceSize)
      ensures cubes == old(cubes) && colorSet == old(colorSet)
    {
      var n := OrDefault(ParseFloat(value), 0.0);
      if n + Dimensions().Get(a) > spaceSize.Get(a) {
        return;
      }
      if n >= 0.0 {
        coordinates := coordinates.With(a, n);
      }
    }

    /** `handleDimensionChange`: stores the typed text on the named axis when
        `DimensionTextAccepted` holds. */
    method ChangeDimension(a: Axis, t: string)
      modifies this
      ensures dimensions == if DimensionTextAccepted(t, spaceSize.Get(a))
                            then old(dimensions).With(a, t) else old(dimensions)
      ensures coordinates == old(coordinates) && spaceSize == old(spaceSize)
      ensures cubes == old(cubes) && colorSet == old(colorSet)
    {
      if VerbatimDimension(t) {
        dimensions := dimensions.With(a, t);
        return;
      }
      if !MatchesDecimalPattern(t) {
        return;
      }
      var n := ParseFloat(t);
      if n.Finite? {
        if n.v > spaceSize.Get(a) {
          return;
        }
        if n.v <= 0.0 {
          return;
        }
      }
      dimensions := dimensions.With(a, t);
    }

    /** `getRandomColor`: a colour not yet in `colorSet`, which then holds it. */
    method GetRandomColor(draws: seq<nat>) returns (color: string)
      requires SomeFresh(colorSet, draws)
      modifies this
      ensures |color| >= 2 && color[0] == '#'
      ensures color[1..] !in old(colorSet) && colorSet == old(colorSet) + {color[1..]}
      ensures coordinates == old(coordinates) && dimensions == old(dimensions)
      ensures spaceSize == old(spaceSize) && cubes == old(cubes)
    {
      var hex, _ := PickColor(colorSet, draws);
      colorSet := colorSet + {hex};
      color := "#" + hex;
      assert color[1..] == hex;
    }

    /** The "add cube" click: the cube is built from the current inputs, takes
        a fresh colour, and is appended exactly when `IsSpaceAvailable` holds;
        otherwise the list stays as it was. */
    method AddCube(draws: seq<nat>) returns (cube: Cube, added: bool)
      requires Valid() && SomeFresh(colorSet, draws)
      modifies this
      ensures Valid()
      ensures cube.Corner() == old(coordinates) && cube.Size() == old(Dimensions())
      ensures |cube.color| >= 2 && cube.color[0] == '#'
      ensures cube.color[1..] !in old(colorSet) && colorSet == old(colorSet) + {cube.color[1..]}
      ensures added <==> Clear(old(cubes), cube)
      ensures cubes == if added then old(cubes) + [cube] else old(cubes)
      ensures coordinates == old(coordinates) && dimensions == old(dimensions)
      ensures spaceSize == old(spaceSize)
    {
      var size := Dimensions();
      var color := GetRandomColor(draws);
      cube := Cube(coordinates.x, coordinates.y, coordinates.z, size.x, size.y, size.z, color);
      added := IsSpaceAvailable(cubes, cube);
      if added {
        AppendClearKeepsDisjoint(cubes, cube);
        cubes := cubes + [cube];
      }
    }
  }

  /** The texts the scenario below types, and what the editor reads from them. */
  lemma ScenarioTexts()
    ensures ParseFloat("5") == Finite(5.0) && ParseFloat("9") == Finite(9.0) && ParseFloat("1") == Finite(1.0)
    ensures !VerbatimDimension("9") && MatchesDecimalPattern("9")
  {
    assert Digits.NatToDecimal(5) == "5" && Digits.NatToDecimal(9) == "9" && Digits.NatToDecimal(1) == "1";
    assert Digits.Zeros(0) + "5" == "5" && Digits.Zeros(0) + "9" == "9" && Digits.Zeros(0) + "1" == "1";
    ParseFloatOfDecimal(0, 5);
    ParseFloatOfDecimal(0, 9);
    ParseFloatOfDecimal(0, 1);
    assert DigitPrefix("9") == "9";
  }

  /** The editor bounds a coordinate by the current dimension, and a dimension
      by the container size alone: widening a cube after positioning it makes
      "add cube" accept a cube that ends outside the container. */
  method BoundsGapScenario(draws: seq<nat>) returns (e: Editor, cube: Cube, added: bool)
    requires SomeFresh({}, draws)
    ensures added && cube.x + cube.width > e.spaceSize.x
  {
    ScenarioTexts();
    e := new Editor();
    e.ChangeCoordinate(X, "5");
    e.ChangeDimension(X, "9");
    cube, added := e.AddCube(draws);
  }
}
