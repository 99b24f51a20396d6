/**
  The menu screen: one full-width band per menu entry, stacked from the top of
  the display, each with its name written near its top-left corner. The band
  of the current selection is filled with the highlight colour (dark blue),
  every other band with the base colour (blue).
 */
module Layout {

  import opened Menu

  datatype Pen = Highlight | Base

  /** One filled rectangle and the label drawn on it. */
  datatype Band = Band(
    left: int, top: int, width: int, height: int,
    pen: Pen,
    name: string, textLeft: int, textTop: int)

  /** Offset of a label from the band's left and top edges. */
  const TextInset: int := 10

  /** Height of every band: the display height shared out evenly, rounded down. */
  function ItemSpacing(): (h: int)
    ensures h * ItemCount <= DisplayHeight < (h + 1) * ItemCount
    ensures h == 34
  {
    DisplayHeight / ItemCount
  }

  /** Band `i` of the menu screen while entry `selection` is selected. */
  function MenuBand(i: nat, selection: int): Band
    requires i < ItemCount
  {
    Band(0, i * ItemSpacing(), DisplayWidth, ItemSpacing(),
         if i == selection then Highlight else Base,
         Names[i], TextInset, i * ItemSpacing() + TextInset)
  }

  /** All bands of the menu screen, top to bottom. */
  function MenuLayout(selection: int): (bands: seq<Band>)
    ensures |bands| == ItemCount
    ensures forall i :: 0 <= i < |bands| ==> bands[i].name == Names[i]
  {
    seq(ItemCount, i requires 0 <= i < ItemCount => MenuBand(i, selection))
  }

  /** Pixel row `y` lies inside band `b`. */
  predicate Covers(b: Band, y: int) {
    b.top <= y < b.top + b.height
  }

  /** Indices of the bands filled with the highlight colour. */
  function HighlightedIndices(bands: seq<Band>): set<int> {
    set i | 0 <= i < |bands| && bands[i].pen == Highlight
  }

  /** Bands run top to bottom without overlapping, full width, inside the display. */
  lemma BandsOrderedWithinDisplay(selection: int)
    ensures forall i, j :: 0 <= i < j < ItemCount ==>
      MenuLayout(selection)[i].top + MenuLayout(selection)[i].height <= MenuLayout(selection)[j].top
    ensures forall i :: 0 <= i < ItemCount ==>
      && MenuLayout(selection)[i].left == 0
      && MenuLayout(selection)[i].width == DisplayWidth
      && 0 <= MenuLayout(selection)[i].top
      && MenuLayout(selection)[i].top + MenuLayout(selection)[i].height <= DisplayHeight
  {
  }

  /** Every pixel row above the last band's bottom edge lies in exactly one band,
      band `y / ItemSpacing()`; the rows below it lie in none. */
  lemma EachRowInOneBand(selection: int, y: int)
    requires 0 <= y < DisplayHeight
    ensures forall i :: 0 <= i < ItemCount ==>
      (Covers(MenuLayout(selection)[i], y) <==> y < ItemCount * ItemSpacing() && i == y / ItemSpacing())
  {
  }

  /** Each label starts inside its own band, at the same offset from the band's corner. */
  lemma LabelsInsideBands(selection: int)
    ensures forall i :: 0 <= i < ItemCount ==>
      && Covers(MenuLayout(selection)[i], MenuLayout(selection)[i].textTop)
      && 0 <= MenuLayout(selection)[i].textLeft < DisplayWidth
    ensures forall i :: 0 <= i < ItemCount ==>
      && MenuLayout(selection)[i].textLeft - MenuLayout(selection)[i].left == TextInset
      && MenuLayout(selection)[i].textTop - MenuLayout(selection)[i].top == TextInset
  {
  }

  /** Exactly the band of the current selection is highlighted; an index
      outside the menu would highlight none. */
  lemma HighlightIsSelection(selection: int)
    ensures HighlightedIndices(MenuLayout(selection)) ==
      if 0 <= selection < ItemCount then {selection} else {}
  {
  }

}
