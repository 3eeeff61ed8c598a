/**
 * The controller page: the page state store, the change router that sends the
 * whole state on every edit, the reconciliation of inbound snapshots, and the
 * two panel projections.
 */
module ControllerPage {
  import opened Wrappers
  import opened Messages
  import opened MessageQueue
  import opened CallbackArray
  import opened Panel

  /** One panel's controls: control index to value; a missing index reads as 0. */
  datatype PanelState = PanelState(values: map<int, int>)

  /** The synchronised unit: panel index to panel state. */
  type PageState = map<int, PanelState>

  /** Panels 0 (sequencer) and 1 (sliders), both without values, so every control of both reads 0. */
  function InitialState(): (s: PageState)
    ensures s.Keys == {0, 1}
    ensures forall p :: p in s ==> s[p].values == map[]
    ensures forall p, i :: p in s ==> ValueAt(s[p], i) == 0
  {
    map[0 := PanelState(map[]), 1 := PanelState(map[])]
  }

  /** `state.values[index] || 0`. */
  function ValueAt(panel: PanelState, index: int): (v: int)
    ensures index in panel.values ==> v == panel.values[index]
    ensures index !in panel.values ==> v == 0
  {
    if index in panel.values then panel.values[index] else 0
  }

  /**
   * The state after one control change, built as a fresh copy: the leaf
   * (panel, index) holds exactly `value` (no clamping), every other leaf and
   * every other panel is as before. A panel index the state lacks makes the
   * source read `.values` of `undefined`, which throws; that is `None`.
   */
  function SetLeaf(s: PageState, panel: int, index: int, value: int): (r: Option<PageState>)
    ensures r.Some? <==> panel in s
    ensures r.Some? ==> r.value.Keys == s.Keys
    ensures r.Some? ==> forall q :: q in s && q != panel ==> r.value[q] == s[q]
    ensures r.Some? ==> r.value[panel].values.Keys == s[panel].values.Keys + {index}
    ensures r.Some? ==> r.value[panel].values[index] == value && ValueAt(r.value[panel], index) == value
    ensures r.Some? ==> forall j :: j in s[panel].values && j != index ==> r.value[panel].values[j] == s[panel].values[j]
  {
    if panel in s then Some(s[panel := PanelState(s[panel].values[index := value])]) else None
  }

  /** Repeating a change is harmless: writing the same leaf twice gives the state one write gives. */
  lemma SetLeafIdempotent(s: PageState, panel: int, index: int, value: int)
    requires panel in s
    ensures SetLeaf(SetLeaf(s, panel, index, value).value, panel, index, value) == SetLeaf(s, panel, index, value)
  {
    var once := SetLeaf(s, panel, index, value).value;
    var twice := SetLeaf(once, panel, index, value).value;
    assert twice[panel] == once[panel];
    assert twice == once;
  }

  /** Of two changes to the same control, the later one wins. */
  lemma SetLeafLastWins(s: PageState, panel: int, index: int, v1: int, v2: int)
    requires panel in s
    ensures SetLeaf(SetLeaf(s, panel, index, v1).value, panel, index, v2) == SetLeaf(s, panel, index, v2)
  {
    var a := SetLeaf(SetLeaf(s, panel, index, v1).value, panel, index, v2).value;
    var b := SetLeaf(s, panel, index, v2).value;
    assert a[panel] == b[panel];
    assert a == b;
  }

  /** Knob 0 of the sequencer set to 50, and slider 0 set to 75, from the initial state. */
  lemma ChangeExamples()
    ensures SetLeaf(InitialState(), 0, 0, 50) == Some(map[0 := PanelState(map[0 := 50]), 1 := PanelState(map[])])
    ensures SetLeaf(InitialState(), 1, 0, 75) == Some(map[0 := PanelState(map[]), 1 := PanelState(map[0 := 75])])
  {
    var knob := SetLeaf(InitialState(), 0, 0, 50).value;
    assert knob.Keys == {0, 1} && knob[0] == PanelState(map[0 := 50]) && knob[1] == PanelState(map[]);
    assert knob == map[0 := PanelState(map[0 := 50]), 1 := PanelState(map[])];
    var slider := SetLeaf(InitialState(), 1, 0, 75).value;
    assert slider.Keys == {0, 1} && slider[0] == PanelState(map[]) && slider[1] == PanelState(map[0 := 75]);
    assert slider == map[0 := PanelState(map[]), 1 := PanelState(map[0 := 75])];
  }

  /**
   * The reconciliation pass: the last queued message's content replaces the
   * whole state; an empty queue leaves it alone.
   */
  function Reconciled(s: PageState, queue: seq<Message<PageState>>): (r: PageState)
    ensures queue == [] ==> r == s
    ensures queue != [] ==> r == queue[|queue| - 1].content
  {
    if queue == [] then s else queue[|queue| - 1].content
  }

  /** Applying every queued snapshot in arrival order, one by one. */
  function ApplyEach(s: PageState, queue: seq<Message<PageState>>): PageState
    decreases |queue|
  {
    if queue == [] then s else ApplyEach(queue[0].content, queue[1..])
  }

  /**
   * Taking only the last message is the same as applying each one in turn,
   * because every message carries a complete state: earlier messages have no
   * effect on the outcome.
   */
  lemma {:induction false} ReconciledIsApplyEach(s: PageState, queue: seq<Message<PageState>>)
    ensures Reconciled(s, queue) == ApplyEach(s, queue)
    decreases |queue|
  {
    if |queue| > 1 {
      ReconciledIsApplyEach(queue[0].content, queue[1..]);
      assert queue[1..][|queue[1..]| - 1] == queue[|queue| - 1];
    }
  }

  /** Applying the same snapshot twice gives the state applying it once gives. */
  lemma SnapshotIdempotent(s: PageState, m: Message<PageState>)
    ensures Reconciled(Reconciled(s, [m]), [m]) == Reconciled(s, [m]) == m.content
  {
  }

  /**
   * Messages A, B, C received before a pass: only C's content is applied,
   * whatever the state and whichever payloads failed to parse in between.
   */
  lemma {:induction false} LastReceivedWins(s: PageState, queue: seq<Message<PageState>>, payloads: seq<string>,
                                           parse: string -> Option<Message<PageState>>, last: string)
    requires parse(last).Some?
    ensures Reconciled(s, ReceiveAll(queue, payloads + [last], parse)) == parse(last).value.content
  {
    ReceiveAllAppendsParsed(queue, payloads + [last], parse);
    ParsedAppend(payloads, last, parse);
  }

  function DigitChar(d: int): char
    requires 0 <= d < 10
  {
    "0123456789"[d]
  }

  function NatToString(n: nat): string
    decreases n
  {
    if n < 10 then [DigitChar(n)] else NatToString(n / 10) + [DigitChar(n % 10)]
  }

  /** The item id `control-<index>`. */
  function ControlId(index: nat): string
  {
    "control-" + NatToString(index)
  }

  /** The number of knobs (and steps) in the sequencer grid. */
  const SequencerSteps: nat := 16

  /** The number of sliders in the slider row. */
  const SliderCount: nat := 4

  /**
   * useSequencerPanelProps: a 4 by 4 grid, 368 pixels square, of sixteen
   * items; item i shows control i's value (0 when absent), forwards changes
   * through callback entry i, and lights its LED iff i is the current step.
   */
  function SequencerPanelProps(state: PanelState, currentStep: int): (r: PanelProps)
    ensures r.ContentType() == Grid && r.columns == 4 && r.rows == 4
    ensures r.width == Some(368) && r.height == Some(368)
    ensures |r.gridItems| == SequencerSteps
    ensures forall i :: 0 <= i < |r.gridItems| ==>
      && r.gridItems[i].knob == Some(KnobProps(ValueAt(state, i), Bound(i)))
      && r.gridItems[i].led == Some(LedProps(currentStep == i))
      && r.gridItems[i].id == ControlId(i)
  {
    var callbacks := Entries(SequencerSteps);
    GridPanel(Some(368), Some(368), 4, 4,
      seq(SequencerSteps, i requires 0 <= i < SequencerSteps =>
        PanelGridItem(ControlId(i), Some(KnobProps(ValueAt(state, i), callbacks[i])), Some(LedProps(currentStep == i)))))
  }

  /**
   * useSlidersPanelProps: a row, 368 pixels wide, of exactly four sliders;
   * slider k shows control k's value (0 when absent) and forwards changes
   * through callback entry k.
   */
  function SlidersPanelProps(state: PanelState): (r: PanelProps)
    ensures r.ContentType() == Row && r.width == Some(368) && r.height == None
    ensures |r.rowItems| == SliderCount
    ensures forall k :: 0 <= k < |r.rowItems| ==>
      r.rowItems[k] == RowItem(ControlId(k), SliderProps(ValueAt(state, k), Bound(k)))
  {
    var callbacks := Entries(SliderCount);
    RowPanel(Some(368), None, [
      RowItem(ControlId(0), SliderProps(ValueAt(state, 0), callbacks[0])),
      RowItem(ControlId(1), SliderProps(ValueAt(state, 1), callbacks[1])),
      RowItem(ControlId(2), SliderProps(ValueAt(state, 2), callbacks[2])),
      RowItem(ControlId(3), SliderProps(ValueAt(state, 3), callbacks[3]))
    ])
  }

  /**
   * The two panels the page renders, sequencer then sliders. Rendering reads
   * `.values` of panels 0 and 1, so a state without either one throws (`None`).
   * When both exist, each panel passes getPanelProps for its own kind.
   */
  function PagePanels(s: PageState, currentStep: int): (r: Option<seq<PanelProps>>)
    ensures r.Some? <==> 0 in s && 1 in s
    ensures r.Some? ==> |r.value| == 2
    ensures r.Some? ==> GetPanelProps(Some(r.value[0]), Grid) == Ok(r.value[0])
    ensures r.Some? ==> GetPanelProps(Some(r.value[1]), Row) == Ok(r.value[1])
    ensures r.Some? ==> GetPanelProps(Some(r.value[0]), Row).Err? && GetPanelProps(Some(r.value[1]), Grid).Err?
  {
    if 0 in s && 1 in s then
      Some([SequencerPanelProps(s[0], currentStep), SlidersPanelProps(s[1])])
    else
      None
  }

  /**
   * A change to knob i is what the sequencer shows afterwards: item i reads the
   * new value and every other item reads what it did before.
   */
  lemma SequencerShowsChange(s: PageState, i: int, v: int, currentStep: int)
    requires 0 in s && 0 <= i < SequencerSteps
    ensures var after := SequencerPanelProps(SetLeaf(s, 0, i, v).value[0], currentStep);
            var before := SequencerPanelProps(s[0], currentStep);
            && after.gridItems[i].knob.value.value == v
            && forall j :: 0 <= j < SequencerSteps && j != i ==> after.gridItems[j] == before.gridItems[j]
  {
  }

  /**
   * The initial page: all sixteen knobs and all four sliders read 0, and with
   * the current step at 5 only item 5's LED is on.
   */
  lemma InitialProjection()
    ensures forall i :: 0 <= i < SequencerSteps ==> SequencerPanelProps(InitialState()[0], 5).gridItems[i].knob.value.value == 0
    ensures forall i :: 0 <= i < SequencerSteps ==> (SequencerPanelProps(InitialState()[0], 5).gridItems[i].led.value.isOn <==> i == 5)
    ensures forall k :: 0 <= k < SliderCount ==> SlidersPanelProps(InitialState()[1]).rowItems[k].slider.value == 0
  {
  }

  /** Receiving the snapshot {0: {1: 50}, 1: {2: 75}} shows 50 on knob 1 and 75 on slider 2. */
  lemma SnapshotScenario(s: PageState)
    ensures var snap := map[0 := PanelState(map[1 := 50]), 1 := PanelState(map[2 := 75])];
            var now := Reconciled(s, [Message(Sync, snap)]);
            && SequencerPanelProps(now[0], 0).gridItems[1].knob.value.value == 50
            && SlidersPanelProps(now[1]).rowItems[2].slider.value == 75
  {
  }

  /** usePageProps' state: the page state and the channel adapter it reads and sends through. */
  class Controller {
    var states: PageState
    const channel: Channel<PageState>

    constructor ()
      ensures states == InitialState() && fresh(channel)
      ensures channel.messages == [] && channel.sent == []
    {
      states := InitialState();
      channel := new Channel();
    }

    /**
     * panelOnChange(panel)(index, value): write one leaf into a fresh copy of
     * the state, send exactly one `update` carrying that whole new state, and
     * commit the same state. On a missing panel the updater throws before
     * sending, and nothing changes.
     */
    method PanelOnChange(panel: int, index: int, value: int) returns (ok: bool)
      modifies this, channel
      ensures ok == (panel in old(states))
      ensures ok ==> Some(states) == SetLeaf(old(states), panel, index, value)
      ensures ok ==> channel.sent == old(channel.sent) + [CreateOutgoingMessage(states)]
      ensures !ok ==> states == old(states) && channel.sent == old(channel.sent)
      ensures channel.messages == old(channel.messages)
    {
      var next := SetLeaf(states, panel, index, value);
      if next.None? {
        return false;
      }
      var message := CreateOutgoingMessage(next.value);
      channel.SendMessage(message);
      states := next.value;
      ok := true;
    }

    /**
     * The reconciliation effect: with a non-empty queue, replace the whole
     * state with the last message's content and clear the queue; with an empty
     * queue, do nothing. Nothing is sent.
     */
    method Reconcile()
      modifies this, channel
      ensures states == Reconciled(old(states), old(channel.messages))
      ensures old(channel.messages) != [] ==> states == old(channel.messages)[|old(channel.messages)| - 1].content
      ensures channel.messages == []
      ensures channel.sent == old(channel.sent)
    {
      var queue := channel.messages;
      if queue != [] {
        states := queue[|queue| - 1].content;
        channel.ClearQueue();
      }
    }
  }

  /** The knob-change scenario: one edit sends exactly `{0: {0: 50}, 1: {}}` as an `update`. */
  method KnobChangeScenario() returns (sent: seq<Message<PageState>>, states: PageState)
    ensures sent == [Message(Update, map[0 := PanelState(map[0 := 50]), 1 := PanelState(map[])])]
    ensures states == map[0 := PanelState(map[0 := 50]), 1 := PanelState(map[])]
  {
    var page := new Controller();
    var ok := page.PanelOnChange(0, 0, 50);
    ChangeExamples();
    sent, states := page.channel.sent, page.states;
  }
}
