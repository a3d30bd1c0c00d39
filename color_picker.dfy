/** The editors' `getRandomColor`: draw `Math.floor(Math.random() * 16777215)`,
    write it in hexadecimal, and draw again while the colour is already in the
    component's `colorSet`. The random draws are a parameter. */
module ColorPicker {
  import opened Digits

  /** `n.toString(16)`. */
  function HexColor(n: nat): (s: string)
    ensures |s| >= 1 && AllDigits(s, 16)
  {
    NatToDigits(n, 16)
  }

  /** Some draw gives a colour outside `used`, so the retry loop ends. */
  predicate SomeFresh(used: set<string>, draws: seq<nat>) {
    exists i :: 0 <= i < |draws| && HexColor(draws[i]) !in used
  }

  /** The do-while loop: the first draw whose colour is not in `used`. */
  method PickColor(used: set<string>, draws: seq<nat>) returns (color: string, k: nat)
    requires SomeFresh(used, draws)
    ensures k < |draws| && color == HexColor(draws[k])
    ensures color !in used
    ensures forall j :: 0 <= j < k ==> HexColor(draws[j]) in used
  {
    k := 0;
    color := HexColor(draws[0]);
    while color in used
      invariant k < |draws| && color == HexColor(draws[k])
      invariant forall j :: 0 <= j < k ==> HexColor(draws[j]) in used
      invariant exists i :: k <= i < |draws| && HexColor(draws[i]) !in used
      decreases |draws| - k
    {
      k := k + 1;
      color := HexColor(draws[k]);
    }
  }
}
