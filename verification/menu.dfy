/**
  The fixed menu of the sensor application and the size of the display it is
  drawn on (a 320 by 240 pixel panel).
 */
module Menu {

  /** Names of the menu entries, top to bottom; fixed at startup. */
  const Names: seq<string> :=
    ["Temperature", "Pressure", "Humidity", "Light", "Proximity", "Orientation", "Motion"]

  /** Number of menu entries: the modulus of every wrap-around. */
  const ItemCount: nat := |Names|

  const DisplayWidth: int := 320
  const DisplayHeight: int := 240

  /** No name appears twice, so a captured name identifies its menu entry. */
  lemma NamesDistinct()
    ensures ItemCount == 7
    ensures forall i, j :: 0 <= i < j < ItemCount ==> Names[i] != Names[j]
  {
  }

}
