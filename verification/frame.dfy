/** The pure rules of the QuadView configuration window: the settings it
    hands to the pipeline, the flag switch behind its four check boxes,
    the display-channel rule it applies after every change, and the
    layout of its 50 x 50 preview. */
module Frame {
  import opened Quadrants
  import opened Grid

  /** Settings keys, one per quadrant. */
  const KeepBlue: string := "keep_blue"
  const KeepGreen: string := "keep_green"
  const KeepRed: string := "keep_red"
  const KeepFarRed: string := "keep_farRed"

  function SettingsKey(q: Quadrant): string {
    match q
    case Blue => KeepBlue
    case Green => KeepGreen
    case Red => KeepRed
    case FarRed => KeepFarRed
  }

  /** The settings map: exactly the four keys, each with its flag. */
  function GetSettings(sel: Selection): (m: map<string, bool>)
    ensures m.Keys == {KeepBlue, KeepGreen, KeepRed, KeepFarRed}
    ensures forall q :: SettingsKey(q) in m && m[SettingsKey(q)] == Keeps(sel, q)
  {
    map[KeepBlue := sel.keepBlue, KeepGreen := sel.keepGreen,
        KeepRed := sel.keepRed, KeepFarRed := sel.keepFarRed]
  }

  /** The channel string each check box sends when toggled. */
  function CheckBoxName(q: Quadrant): string {
    match q
    case Blue => "blue"
    case Green => "green"
    case Red => "red"
    case FarRed => "farRed"
  }

  /** The flag switch of a check-box event: the named flag takes the new
      value and the others keep theirs; an unknown name changes nothing. */
  function UpdateSettings(sel: Selection, channel: string, selected: bool): (r: Selection)
    ensures forall q :: Keeps(r, q) == if channel == CheckBoxName(q) then selected else Keeps(sel, q)
    ensures (forall q :: channel != CheckBoxName(q)) ==> r == sel
  {
    assert CheckBoxName(Blue) == "blue" && CheckBoxName(Quadrant.Green) == "green";
    assert CheckBoxName(Red) == "red" && CheckBoxName(FarRed) == "farRed";
    if channel == "blue" then sel.(keepBlue := selected)
    else if channel == "green" then sel.(keepGreen := selected)
    else if channel == "red" then sel.(keepRed := selected)
    else if channel == "farRed" then sel.(keepFarRed := selected)
    else sel
  }

  /** Each check box toggles its own quadrant's flag and no other. */
  lemma CheckBoxTogglesItsQuadrant(sel: Selection, q: Quadrant, selected: bool)
    ensures UpdateSettings(sel, CheckBoxName(q), selected) == With(sel, q, selected)
  {
  }

  /** Colours the window gives display channel slots. */
  datatype ChannelColor = Cyan | Green | Orange | Magenta

  datatype ColorMode = Grayscale | Composite

  /** Display settings: the colour of each display channel slot (a slot's
      other per-channel fields are not modelled), the colour mode, and every
      display-wide field, opaque as D. */
  datatype DisplaySettings<D> = DisplaySettings(channelColors: map<nat, ChannelColor>, mode: ColorMode, other: D)

  /** The fixed display colour of a quadrant. */
  function DisplayColor(q: Quadrant): ChannelColor {
    match q
    case Blue => Cyan
    case Green => ChannelColor.Green
    case Red => Orange
    case FarRed => Magenta
  }

  /** Visits qs in order; each kept quadrant takes the slot at counter, and
      the counter then advances. Returns the slot colours and final counter. */
  function AssignSlots(sel: Selection, qs: seq<Quadrant>, counter: nat, colors: map<nat, ChannelColor>): (r: (map<nat, ChannelColor>, nat))
    ensures r.1 == counter + |KeptAmong(sel, qs)|
    ensures forall i :: counter <= i < r.1 ==>
              i in r.0 && r.0[i] == DisplayColor(KeptAmong(sel, qs)[i - counter])
    ensures forall i :: (i < counter || r.1 <= i) ==> (i in r.0 <==> i in colors)
    ensures forall i :: (i < counter || r.1 <= i) && i in colors ==> r.0[i] == colors[i]
    decreases |qs|
  {
    if qs == [] then (colors, counter)
    else if Keeps(sel, qs[0]) then AssignSlots(sel, qs[1..], counter + 1, colors[counter := DisplayColor(qs[0])])
    else AssignSlots(sel, qs[1..], counter, colors)
  }

  /** The display settings after a flag change: slot k shows the k-th kept
      quadrant in its colour, later slots of the base settings are kept,
      and the mode is grayscale exactly when one quadrant is kept. */
  function DisplaySettingsFor<D>(sel: Selection, base: DisplaySettings<D>): (r: DisplaySettings<D>)
    ensures forall k :: 0 <= k < KeptCount(sel) ==>
              k in r.channelColors && r.channelColors[k] == DisplayColor(Kept(sel)[k])
    ensures forall k :: k >= KeptCount(sel) ==> (k in r.channelColors <==> k in base.channelColors)
    ensures forall k :: k >= KeptCount(sel) && k in base.channelColors ==>
              r.channelColors[k] == base.channelColors[k]
    ensures r.mode == Grayscale <==> KeptCount(sel) == 1
    ensures r.other == base.other
  {
    var (colors, counter) := AssignSlots(sel, Order, 0, base.channelColors);
    DisplaySettings(colors, if counter == 1 then Grayscale else Composite, base.other)
  }

  /** Fill of a preview box: white for a kept quadrant, light gray otherwise. */
  datatype PreviewFill = White | LightGray

  /** One filled box of the preview. */
  datatype Box = Box(area: Rect, fill: PreviewFill)

  /** Side of the square preview panel, in pixels. */
  const PreviewSize: nat := 50

  function Fill(keep: bool): PreviewFill {
    if keep then White else LightGray
  }

  /** The four quadrant boxes of the preview, painted in the order Blue,
      Green, Red, FarRed. */
  function PreviewBoxes(sel: Selection): (r: seq<Box>)
    ensures |r| == |Order|
    ensures forall i :: 0 <= i < |r| ==> (r[i].fill == LightGray <==> !Keeps(sel, Order[i]))
    ensures forall i :: 0 <= i < |r| ==>
              Within(r[i].area, PreviewSize, PreviewSize)
              && r[i].area.width == PreviewSize / 2 && r[i].area.height == PreviewSize / 2
    ensures forall i, j :: 0 <= i < j < |r| ==> Disjoint(r[i].area, r[j].area)
  {
    [Box(Rect(0, 0, 25, 25), Fill(sel.keepBlue)),
     Box(Rect(0, 25, 25, 25), Fill(sel.keepGreen)),
     Box(Rect(25, 0, 25, 25), Fill(sel.keepRed)),
     Box(Rect(25, 25, 25, 25), Fill(sel.keepFarRed))]
  }
}
