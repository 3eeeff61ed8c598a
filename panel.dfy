/**
 * The panel view-model shared by the page and the view layer, and
 * getPanelProps, the check that narrows a panel to the kind a caller expects.
 */
module Panel {
  import opened Wrappers
  import opened CallbackArray

  /** `PanelContentType`: a panel is either a grid of knobs and LEDs or a row of sliders. */
  datatype PanelContentType = Grid | Row

  datatype KnobProps = KnobProps(value: int, onChange: Bound)

  datatype LedProps = LedProps(isOn: bool)

  datatype PanelGridItem = PanelGridItem(id: string, knob: Option<KnobProps>, led: Option<LedProps>)

  datatype SliderProps = SliderProps(value: int, onChange: Bound)

  datatype RowItem = RowItem(id: string, slider: SliderProps)

  /** `GridPanelProps | RowPanelProps`; the tag is the constructor. Sizes are in pixels when present. */
  datatype PanelProps =
    | GridPanel(width: Option<int>, height: Option<int>, columns: int, rows: int, gridItems: seq<PanelGridItem>)
    | RowPanel(width: Option<int>, height: Option<int>, rowItems: seq<RowItem>)
  {
    function ContentType(): PanelContentType
    {
      if GridPanel? then Grid else Row
    }
  }

  /** The thrown error: the expected tag and the tag found, if there was a panel at all. */
  datatype PanelError = WrongPanelType(expected: PanelContentType, got: Option<PanelContentType>)

  /**
   * getPanelProps: a missing panel or one of the other kind is an error that
   * names both tags; a panel of the expected kind is returned as it is, so the
   * caller may rely on its kind.
   */
  function GetPanelProps(panel: Option<PanelProps>, expected: PanelContentType): (r: Result<PanelProps, PanelError>)
    ensures r.Ok? <==> panel.Some? && panel.value.ContentType() == expected
    ensures r.Ok? ==> r.value == panel.value && r.value.ContentType() == expected
    ensures expected == Grid && r.Ok? ==> r.value.GridPanel?
    ensures expected == Row && r.Ok? ==> r.value.RowPanel?
    ensures r.Err? ==> r.error.expected == expected
    ensures r.Err? && panel.Some? ==> r.error.got == Some(panel.value.ContentType()) && r.error.got != Some(expected)
    ensures panel.None? ==> r == Err(WrongPanelType(expected, None))
  {
    if panel.None? || panel.value.ContentType() != expected then
      Err(WrongPanelType(expected, if panel.Some? then Some(panel.value.ContentType()) else None))
    else
      Ok(panel.value)
  }
}
