/**
 * The block buttons next to the fee selector: a column of buttons, each a stack of
 * labels, showing the projected mempool blocks or the block a transaction was
 * confirmed in. A label is hidden exactly when its text is empty.
 */
module BlockButtons {
  import opened Wrappers
  import Strings

  // ----- texts -----

  datatype BlockType = Projected | Confirmed | Unconfirmed

  /**
   * The text colour of a label. The choice between "white" and "black" tests the
   * block type for truth, and every member of the enumeration is true, so it is
   * always "white".
   */
  function TextColor(blockType: BlockType): string {
    "white"
  }

  /** `format_block_number`, without the locale's digit grouping. */
  function FormatBlockNumber(n: int): string {
    Strings.IntToString(n)
  }

  /** `LabelNumberConfirmations.set`: "1 Confirmation", "2 Confirmations", "0 Confirmation". */
  function ConfirmationsText(i: int): string {
    Strings.IntToString(i) + " " + "Confirmation" + (if i > 1 then "s" else "")
  }

  /** The confirmation text is in the plural exactly when the count exceeds one. */
  lemma ConfirmationsPlural(i: int)
    ensures Strings.EndsWith(ConfirmationsText(i), "Confirmations") <==> i > 1
    ensures Strings.EndsWith(ConfirmationsText(i), "Confirmation") <==> i <= 1
  {
    if i > 1 {
      ConfirmationsTextPlural(i);
    } else {
      ConfirmationsTextSingular(i);
    }
  }

  lemma ConfirmationsTextPlural(i: int)
    requires i > 1
    ensures Strings.EndsWith(ConfirmationsText(i), "Confirmations")
    ensures !Strings.EndsWith(ConfirmationsText(i), "Confirmation")
  {
    var p := Strings.IntToString(i) + " ";
    Strings.EndsWithAppendedTwo(p, "Confirmation", "s");
    assert "Confirmation" + "s" == "Confirmations";
    Strings.EndsWithLast(ConfirmationsText(i), "Confirmation");
  }

  lemma ConfirmationsTextSingular(i: int)
    requires i <= 1
    ensures Strings.EndsWith(ConfirmationsText(i), "Confirmation")
    ensures !Strings.EndsWith(ConfirmationsText(i), "Confirmations")
  {
    var p := Strings.IntToString(i) + " ";
    assert ConfirmationsText(i) == p + "Confirmation";
    Strings.EndsWithAppended(p, "Confirmation");
    Strings.EndsWithLast(p + "Confirmation", "Confirmations");
  }

  /** Python's `round` to an integer: the nearest integer, a tie going to the even one. */
  function RoundHalfEven(x: real): int {
    var f := x.Floor;
    var frac := x - f as real;
    if frac < 0.5 then f
    else if frac > 0.5 then f + 1
    else if f % 2 == 0 then f
    else f + 1
  }

  /** What `round` promises: within one half of `x`, and even whenever exactly one half away. */
  ghost predicate IsRoundHalfEven(x: real, r: int) {
    r as real - x <= 0.5 && x - r as real <= 0.5
    && (r as real - x == 0.5 || x - r as real == 0.5 ==> r % 2 == 0)
  }

  /** `RoundHalfEven` meets that promise, and it is the only integer that does. */
  lemma RoundHalfEvenSpec(x: real, k: int)
    ensures IsRoundHalfEven(x, RoundHalfEven(x))
    ensures IsRoundHalfEven(x, k) ==> k == RoundHalfEven(x)
  {
    var f := x.Floor;
    assert f as real <= x < f as real + 1.0;
    if IsRoundHalfEven(x, k) {
      assert f <= k <= f + 1;
    }
  }

  /** How long until block `n` is expected, at ten minutes per block. */
  datatype Estimate = Minutes(minutes: int) | Hours(hours: int)

  /** `LabelTimeEstimation.set`: minutes below six blocks, hours (rounded) from six on. */
  function EstimateFor(blockNumber: int): Estimate {
    if blockNumber < 6 then Minutes(blockNumber * 10)
    else Hours(RoundHalfEven(blockNumber as real / 6.0))
  }

  function EstimateText(e: Estimate): string {
    match e
    case Minutes(m) => "~in " + Strings.IntToString(m) + " min"
    case Hours(h) => "~in " + Strings.IntToString(h) + " hours"
  }

  /**
   * Below six blocks the estimate is exact in minutes; from six blocks on it is the
   * number of hours nearest to `n` ten-minute blocks, a half hour going to the even
   * count, and never less than one hour.
   */
  lemma EstimateForSpec(n: int)
    ensures n < 6 ==> EstimateFor(n) == Minutes(10 * n)
    ensures n >= 6 ==> (EstimateFor(n).Hours?
      && 6 * EstimateFor(n).hours - 3 <= n <= 6 * EstimateFor(n).hours + 3
      && (n == 6 * EstimateFor(n).hours - 3 || n == 6 * EstimateFor(n).hours + 3 ==> EstimateFor(n).hours % 2 == 0)
      && EstimateFor(n).hours >= 1)
  {
    if n >= 6 {
      var x := n as real / 6.0;
      var h := RoundHalfEven(x);
      RoundHalfEvenSpec(x, h);
      assert n as real == 6.0 * x;
      assert 6 * h - 3 <= n <= 6 * h + 3 by {
        assert (6 * h) as real == 6.0 * h as real;
      }
      if n == 6 * h - 3 || n == 6 * h + 3 {
        assert (6 * h) as real == 6.0 * h as real;
        assert h as real - x == 0.5 || x - h as real == 0.5;
      }
    }
  }

  /** The title of projected block `n` in the mempool column. */
  function MempoolTitle(blockNumber: int): string {
    if blockNumber == 1 then "Next Block" else FormatBlockNumber(blockNumber) + ". Block"
  }

  /** Button `i` of the mempool column is shown when there is such a block, and the first always. */
  predicate MempoolButtonVisible(i: nat, mempoolBlocks: nat) {
    i < if mempoolBlocks > 1 then mempoolBlocks else 1
  }

  /** The first button is always visible and titled "Next Block"; any other one only while its block exists. */
  lemma MempoolButtonsShowNextBlock(i: nat, mempoolBlocks: nat)
    ensures MempoolButtonVisible(0, mempoolBlocks) && MempoolTitle(0 + 1) == "Next Block"
    ensures i > 0 ==> (MempoolButtonVisible(i, mempoolBlocks) <==> i < mempoolBlocks)
    ensures i > 0 ==> MempoolTitle(i + 1) != "Next Block"
  {
    if i > 0 {
      var t := MempoolTitle(i + 1);
      assert t == FormatBlockNumber(i + 1) + ". Block";
      assert t[|t| - 7] == '.';
      assert "Next Block"[3] == 't';
    }
  }

  /** `str(round(fee, 1))` followed by the unit, for a fee rate in satoshis per virtual byte. */
  function ExactFeeText(fee: real, unit: string): string {
    var tenths := RoundHalfEven(fee * 10.0);
    var magnitude := if tenths < 0 then -tenths else tenths;
    (if tenths < 0 then "-" else "")
    + Strings.IntToString(magnitude / 10) + "." + [Strings.DigitChar(magnitude % 10)]
    + " " + unit
  }

  const ExplorerText := "visit<br>mempool.space"

  // ----- labels and buttons -----

  /** `BaseBlockLabel`: a text label that hides itself whenever its text is empty. */
  class BlockLabel {
    var text: string
    var hidden: bool

    ghost predicate Valid()
      reads this
    {
      hidden <==> text == ""
    }

    constructor(text: string)
      ensures this.text == text && Valid()
    {
      this.text := text;
      hidden := text == "";
    }

    /** `setText`: the new text, and hidden exactly when it is empty. */
    method SetText(s: string)
      modifies this
      ensures text == s && Valid()
    {
      hidden := s == "";
      text := s;
    }
  }

  // The positions of the labels in a button, top to bottom.
  const ApproximateMedianFee := 0
  const ExactMedianFee := 1
  const NumberConfirmations := 2
  const BlockHeight := 3
  const FeeRange := 4
  const Title := 5
  const TimeEstimation := 6
  const Explorer := 7
  const LabelCount := 8

  /** `BlockButton`: a push button holding its labels in display order. */
  class BlockButton {
    const labels: seq<BlockLabel>
    var visible: bool

    ghost predicate Valid()
      reads this, labels
    {
      |labels| == LabelCount
      && (forall a, b :: 0 <= a < b < |labels| ==> labels[a] != labels[b])
      && forall a :: 0 <= a < |labels| ==> labels[a].Valid()
    }

    constructor()
      ensures Valid() && visible
      ensures forall a :: 0 <= a < |labels| ==> fresh(labels[a]) && labels[a].text == ""
    {
      var ls: seq<BlockLabel> := [];
      for a := 0 to LabelCount
        invariant |ls| == a
        invariant forall c :: 0 <= c < a ==> fresh(ls[c]) && ls[c].text == "" && ls[c].Valid()
        invariant forall c, d :: 0 <= c < d < a ==> ls[c] != ls[d]
      {
        var l := new BlockLabel("");
        ls := ls + [l];
      }
      labels := ls;
      visible := true;
    }
  }

  /** `VerticalButtonGroup`: a column of buttons; clicking button `i` emits `i`. */
  class VerticalButtonGroup {
    const buttons: seq<BlockButton>
    /** The index each button's click handler was made with. */
    const handlerIndex: seq<int>

    ghost function Labels(): set<BlockLabel> {
      set i, a | 0 <= i < |buttons| && 0 <= a < |buttons[i].labels| :: buttons[i].labels[a]
    }

    ghost predicate Valid()
      reads this, buttons, Labels()
    {
      |handlerIndex| == |buttons|
      && (forall i :: 0 <= i < |buttons| ==> handlerIndex[i] == i && buttons[i].Valid())
      && (forall i, j :: 0 <= i < j < |buttons| ==> buttons[i] != buttons[j])
      && forall i, j, a, b :: 0 <= i < |buttons| && 0 <= j < |buttons| && i != j
          && 0 <= a < |buttons[i].labels| && 0 <= b < |buttons[j].labels|
          ==> buttons[i].labels[a] != buttons[j].labels[b]
    }

    /** `button_count` fresh buttons, handler `i` bound to button `i`. */
    constructor(buttonCount: nat)
      ensures Valid() && |buttons| == buttonCount
      ensures forall i :: 0 <= i < |buttons| ==> fresh(buttons[i]) && buttons[i].visible
      ensures forall i, a :: 0 <= i < |buttons| && 0 <= a < |buttons[i].labels| ==>
        fresh(buttons[i].labels[a]) && buttons[i].labels[a].text == ""
    {
      var bs: seq<BlockButton> := [];
      var hs: seq<int> := [];
      for i := 0 to buttonCount
        invariant |bs| == |hs| == i
        invariant forall k :: 0 <= k < i ==> hs[k] == k && bs[k].Valid() && fresh(bs[k]) && bs[k].visible
        invariant forall k, a :: 0 <= k < i && 0 <= a < |bs[k].labels| ==> fresh(bs[k].labels[a]) && bs[k].labels[a].text == ""
        invariant forall k, m :: 0 <= k < m < i ==> bs[k] != bs[m]
        invariant forall k, m, a, b :: (0 <= k < i && 0 <= m < i && k != m
          && 0 <= a < |bs[k].labels| && 0 <= b < |bs[m].labels|
          ==> bs[k].labels[a] != bs[m].labels[b])
      {
        var button := new BlockButton();
        bs := bs + [button];
        hs := hs + [i];
      }
      buttons := bs;
      handlerIndex := hs;
    }

    /** A click on button `i` emits the index its handler was made with, which is `i`. */
    method Click(i: nat) returns (emitted: int)
      requires Valid() && i < |buttons|
      ensures emitted == i
    {
      emitted := handlerIndex[i];
    }
  }

  /** The label `a` of button `i`. */
  ghost function LabelOf(group: VerticalButtonGroup, i: nat, a: nat): BlockLabel
    reads group, group.buttons
    requires i < |group.buttons| && a < |group.buttons[i].labels|
  {
    group.buttons[i].labels[a]
  }

  // ----- the mempool column -----

  /** `MempoolButtons`: the next blocks the mempool projects, one button each. */
  class MempoolButtons {
    const buttonGroup: VerticalButtonGroup

    constructor(maxButtonCount: nat, mempoolBlocks: nat)
      ensures buttonGroup.Valid() && |buttonGroup.buttons| == maxButtonCount
      ensures Shown(mempoolBlocks)
    {
      buttonGroup := new VerticalButtonGroup(maxButtonCount);
      new;
      Refresh(mempoolBlocks);
    }

    /** Every button shows its projected block: visibility, title and time estimate. */
    ghost predicate Shown(mempoolBlocks: nat)
      reads this, buttonGroup, buttonGroup.buttons, buttonGroup.Labels()
    {
      forall i :: 0 <= i < |buttonGroup.buttons| ==>
        ProjectedState(buttonGroup.buttons[i]) == MempoolState(i, mempoolBlocks)
    }

    /**
     * `refresh`, given the number of blocks the mempool currently projects. The
     * fee labels and colours, which come from the mempool's fee rates, are not part
     * of this model.
     */
    method Refresh(mempoolBlocks: nat)
      requires buttonGroup.Valid()
      modifies buttonGroup.buttons, buttonGroup.Labels()
      ensures buttonGroup.Valid() && Shown(mempoolBlocks)
    {
      var buttons := buttonGroup.buttons;
      for i := 0 to |buttons|
        invariant buttonGroup.Valid()
        invariant forall k :: 0 <= k < i ==> ProjectedState(buttons[k]) == MempoolState(k, mempoolBlocks)
      {
        ShowProjected(buttonGroup, i, i + 1, MempoolButtonVisible(i, mempoolBlocks), MempoolTitle(i + 1));
      }
    }
  }

  /** What a button shows of a projected block: whether it is visible, its title and its time estimate. */
  ghost function ProjectedState(button: BlockButton): (bool, string, string)
    reads button, button.labels
  {
    if |button.labels| == LabelCount
    then (button.visible, button.labels[Title].text, button.labels[TimeEstimation].text)
    else (button.visible, "", "")
  }

  /** The state of a button showing block `blockNumber` under `title`. */
  function ProjectedTexts(visible: bool, title: string, blockNumber: int): (bool, string, string) {
    (visible, Strings.HtmlF(title, TextColor(Projected), "16px", false),
     Strings.HtmlF(EstimateText(EstimateFor(blockNumber)), TextColor(Projected), "12px", false))
  }

  /** Mempool button `i`: visible while its block exists, titled and timed for block `i + 1`. */
  function MempoolState(i: nat, mempoolBlocks: nat): (bool, string, string) {
    ProjectedTexts(MempoolButtonVisible(i, mempoolBlocks), MempoolTitle(i + 1), i + 1)
  }

  /** One pass of a refresh loop over the projected blocks: button `i` shows block `blockNumber`. */
  method ShowProjected(group: VerticalButtonGroup, i: nat, blockNumber: int, visible: bool, title: string)
    requires group.Valid() && i < |group.buttons|
    modifies group.buttons[i], group.buttons[i].labels[Title], group.buttons[i].labels[TimeEstimation]
    ensures group.Valid()
    ensures ProjectedState(group.buttons[i]) == ProjectedTexts(visible, title, blockNumber)
    ensures forall k :: 0 <= k < |group.buttons| && k != i ==>
      ProjectedState(group.buttons[k]) == old(ProjectedState(group.buttons[k]))
  {
    var button := group.buttons[i];
    button.visible := visible;
    button.labels[Title].SetText(Strings.HtmlF(title, TextColor(Projected), "16px", false));
    button.labels[TimeEstimation].SetText(Strings.HtmlF(EstimateText(EstimateFor(blockNumber)), TextColor(Projected), "12px", false));
  }

  /** The loop of the projected block's refresh: every button shows block `blockNumber` under `title`. */
  method ShowProjectedAll(group: VerticalButtonGroup, blockNumber: int, title: string)
    requires group.Valid()
    modifies group.buttons, group.Labels()
    ensures group.Valid()
    ensures forall i :: 0 <= i < |group.buttons| ==>
      ProjectedState(group.buttons[i]) == ProjectedTexts(old(group.buttons[i].visible), title, blockNumber)
  {
    var buttons := group.buttons;
    for i := 0 to |buttons|
      invariant group.Valid()
      invariant forall k :: 0 <= k < i ==>
        ProjectedState(buttons[k]) == ProjectedTexts(old(buttons[k].visible), title, blockNumber)
      invariant forall k :: i <= k < |buttons| ==> buttons[k].visible == old(buttons[k].visible)
    {
      ShowProjected(group, i, blockNumber, buttons[i].visible, title);
    }
  }

  /** A new group of one visible button. */
  method NewSingleButtonGroup() returns (group: VerticalButtonGroup)
    ensures fresh(group) && |group.buttons| == 1 && fresh(group.buttons[0]) && fresh(group.Labels())
    ensures group.Valid() && group.buttons[0].visible
  {
    group := new VerticalButtonGroup(1);
  }

  /** The title of the block a fee rate is projected into: `~n. Block`. */
  function ProjectedTitle(blockNumber: int): string {
    "~" + FormatBlockNumber(blockNumber) + ". Block"
  }

  /** `MempoolProjectedBlock`: the block a chosen fee rate is projected into. */
  class MempoolProjectedBlock {
    const buttonGroup: VerticalButtonGroup
    var feeRate: real
    var url: string

    /** A single button for the fee rate `feeRate` (1 by default), shown at once. */
    constructor(feeRate: real, projectedIndex: real -> nat)
      ensures this.feeRate == feeRate && url == ""
      ensures buttonGroup.Valid() && |buttonGroup.buttons| == 1
      ensures ProjectedState(buttonGroup.buttons[0])
        == ProjectedTexts(true, ProjectedTitle(projectedIndex(feeRate) + 1), projectedIndex(feeRate) + 1)
    {
      var group := NewSingleButtonGroup();
      buttonGroup := group;
      this.feeRate := feeRate;
      url := "";
      new;
      assert group.Valid() && group.buttons[0].visible;
      Refresh(None, projectedIndex);
    }

    /**
     * `refresh`: a given fee rate replaces the stored one, `None` keeps it; the
     * button then shows the projected block of the stored rate. `projectedIndex`
     * stands for the mempool's projection of a fee rate onto a block index.
     */
    method Refresh(newFeeRate: Option<real>, projectedIndex: real -> nat)
      requires buttonGroup.Valid()
      modifies this, buttonGroup.buttons, buttonGroup.Labels()
      ensures feeRate == if newFeeRate.Some? then newFeeRate.value else old(feeRate)
      ensures url == old(url) && buttonGroup.Valid()
      ensures forall i :: 0 <= i < |buttonGroup.buttons| ==>
        ProjectedState(buttonGroup.buttons[i])
        == ProjectedTexts(old(buttonGroup.buttons[i].visible), ProjectedTitle(projectedIndex(feeRate) + 1), projectedIndex(feeRate) + 1)
    {
      var rate := if newFeeRate.Some? then newFeeRate.value else feeRate;
      var blockIndex := projectedIndex(rate);
      ghost var targets: set<object> := buttonGroup.Labels();
      ghost var buttons: seq<object> := buttonGroup.buttons;
      assert this !in targets && this !in buttons;
      ShowProjectedAll(buttonGroup, blockIndex + 1, ProjectedTitle(blockIndex + 1));
      feeRate := rate;
    }

    /**
     * `_on_button_click`: the stored url if there is one, else the explorer's url
     * for the projected block (given here); the url is opened when not empty.
     */
    method OnButtonClick(explorerUrl: string) returns (openedUrl: Option<string>)
      ensures url != "" ==> openedUrl == Some(url)
      ensures url == "" ==> openedUrl == if explorerUrl != "" then Some(explorerUrl) else None
    {
      var target := if url != "" then url else explorerUrl;
      openedUrl := if target != "" then Some(target) else None;
    }
  }

  // ----- a confirmed block -----

  /** The height and time of the block that confirmed a transaction. */
  datatype BlockTime = BlockTime(height: int, timestamp: int)

  /** `ConfirmedBlock`: the block a transaction was mined in. */
  class ConfirmedBlock {
    const buttonGroup: VerticalButtonGroup
    var feeRate: Option<real>
    var confirmationTime: Option<BlockTime>
    var url: string

    /** A single button for a confirmed block; nothing is shown before the first refresh. */
    constructor(url: string, confirmationTime: Option<BlockTime>, feeRate: Option<real>)
      ensures this.url == url && this.confirmationTime == confirmationTime && this.feeRate == feeRate
      ensures buttonGroup.Valid() && |buttonGroup.buttons| == 1
    {
      buttonGroup := new VerticalButtonGroup(1);
      this.url := url;
      this.confirmationTime := confirmationTime;
      this.feeRate := feeRate;
    }

    /** The stored fee rate counts only when it is set and not zero, as in a truth test. */
    predicate HasFeeRate()
      reads this
    {
      feeRate.Some? && feeRate.value != 0.0
    }

    /**
     * `refresh`: a given fee rate or confirmation time replaces the stored one and
     * `None` keeps it. Without a confirmation time nothing is shown. Otherwise each
     * button shows the block; with the chain height it counts the confirmations
     * and hides the height, without it the reverse; the exact fee shows when a
     * non-zero fee rate is known. Only the labels in `ConfirmedLabels` may change,
     * so the approximate median fee, the fee range and the time estimation keep
     * their text.
     */
    method Refresh(newFeeRate: Option<real>, newConfirmationTime: Option<BlockTime>, chainHeight: Option<int>, unit: string)
      requires buttonGroup.Valid()
      modifies this, ConfirmedLabels(buttonGroup)
      ensures url == old(url) && buttonGroup.Valid()
      ensures feeRate == if newFeeRate.Some? then newFeeRate else old(feeRate)
      ensures confirmationTime == if newConfirmationTime.Some? then newConfirmationTime else old(confirmationTime)
      ensures confirmationTime.None? ==> forall l :: l in buttonGroup.Labels() ==> l.text == old(l.text)
      ensures confirmationTime.Some? ==>
        forall i :: 0 <= i < |buttonGroup.buttons| ==>
          ConfirmedShown(buttonGroup.buttons[i], confirmationTime.value, chainHeight, feeRate, unit)
    {
      feeRate := if newFeeRate.Some? then newFeeRate else feeRate;
      confirmationTime := if newConfirmationTime.Some? then newConfirmationTime else confirmationTime;
      if confirmationTime.None? {
        return;
      }
      ghost var targets: set<object> := ConfirmedLabels(buttonGroup);
      assert this !in targets;
      ShowConfirmedAll(buttonGroup, confirmationTime.value, chainHeight, feeRate, unit);
    }

    /** `_on_button_click`: opens the url when there is one, and emits the stored fee rate. */
    method OnButtonClick() returns (openedUrl: Option<string>, emitted: Option<real>)
      ensures openedUrl == (if url != "" then Some(url) else None) && emitted == feeRate
    {
      openedUrl := if url != "" then Some(url) else None;
      emitted := feeRate;
    }
  }

  /** What a confirmed block's button shows, label by label. */
  ghost predicate ConfirmedShown(button: BlockButton, time: BlockTime, chainHeight: Option<int>, feeRate: Option<real>, unit: string)
    reads button.labels
  {
    |button.labels| == LabelCount
    && button.labels[Title].text == Strings.HtmlF("Block " + FormatBlockNumber(time.height), TextColor(Confirmed), "16px", false)
    && button.labels[NumberConfirmations].text
      == (if chainHeight.Some? then Strings.HtmlF(ConfirmationsText(chainHeight.value - time.height + 1), TextColor(Confirmed), "12px", false) else "")
    && button.labels[BlockHeight].text
      == (if chainHeight.Some? then "" else Strings.HtmlF(Strings.IntToString(time.height) + ". Block", TextColor(Confirmed), "12px", false))
    && button.labels[Explorer].text == Strings.HtmlF(ExplorerText, TextColor(Confirmed), "10px", false)
    && button.labels[ExactMedianFee].text
      == (if feeRate.Some? && feeRate.value != 0.0 then Strings.HtmlF(ExactFeeText(feeRate.value, unit), TextColor(Confirmed), "12px", false) else "")
  }

  /**
   * Exactly one of the confirmation count and the block height is shown, and the
   * exact fee is shown exactly when a non-zero fee rate is known.
   */
  lemma ConfirmedShowsOneOfCountAndHeight(button: BlockButton, time: BlockTime, chainHeight: Option<int>, feeRate: Option<real>, unit: string)
    requires button.Valid() && ConfirmedShown(button, time, chainHeight, feeRate, unit)
    ensures button.labels[NumberConfirmations].hidden != button.labels[BlockHeight].hidden
    ensures !button.labels[NumberConfirmations].hidden <==> chainHeight.Some?
    ensures !button.labels[ExactMedianFee].hidden <==> feeRate.Some? && feeRate.value != 0.0
    ensures !button.labels[Title].hidden && !button.labels[Explorer].hidden
  {
    assert button.labels[NumberConfirmations].Valid() && button.labels[BlockHeight].Valid();
    assert button.labels[ExactMedianFee].Valid() && button.labels[Title].Valid() && button.labels[Explorer].Valid();
  }

  /**
   * The labels a confirmed block's refresh sets: the title, the confirmations, the
   * block height, the explorer link and the exact fee of every button.
   */
  ghost function ConfirmedLabels(group: VerticalButtonGroup): set<BlockLabel> {
    set i, a | 0 <= i < |group.buttons| && 0 <= a < |group.buttons[i].labels| && ConfirmedSets(a) :: group.buttons[i].labels[a]
  }

  /** Whether label `a` is one a confirmed block's refresh sets. */
  predicate ConfirmedSets(a: int) {
    a == Title || a == NumberConfirmations || a == BlockHeight || a == Explorer || a == ExactMedianFee
  }

  /** The loop of the confirmed block's refresh: every button shows the block. */
  method ShowConfirmedAll(group: VerticalButtonGroup, time: BlockTime, chainHeight: Option<int>, feeRate: Option<real>, unit: string)
    requires group.Valid()
    modifies ConfirmedLabels(group)
    ensures group.Valid()
    ensures forall i :: 0 <= i < |group.buttons| ==> ConfirmedShown(group.buttons[i], time, chainHeight, feeRate, unit)
  {
    var buttons := group.buttons;
    for i := 0 to |buttons|
      invariant group.Valid()
      invariant forall k :: 0 <= k < i ==> ConfirmedShown(buttons[k], time, chainHeight, feeRate, unit)
    {
      ShowConfirmed(group, i, time, chainHeight, feeRate, unit);
    }
  }

  /** One pass of the confirmed block's refresh loop, on button `i`. */
  method ShowConfirmed(group: VerticalButtonGroup, i: nat, time: BlockTime, chainHeight: Option<int>, feeRate: Option<real>, unit: string)
    requires group.Valid() && i < |group.buttons|
    modifies ConfirmedLabelsOf(group.buttons[i])
    ensures group.Valid()
    ensures ConfirmedShown(group.buttons[i], time, chainHeight, feeRate, unit)
    ensures forall k :: 0 <= k < |group.buttons| && k != i && old(ConfirmedShown(group.buttons[k], time, chainHeight, feeRate, unit)) ==>
      ConfirmedShown(group.buttons[k], time, chainHeight, feeRate, unit)
  {
    ConfirmedLabelsOfInGroup(group, i);
    ShowConfirmedButton(group.buttons[i], time, chainHeight, feeRate, unit);
  }

  /** The labels of one button that a confirmed block's refresh sets. */
  ghost function ConfirmedLabelsOf(button: BlockButton): set<BlockLabel> {
    set a | 0 <= a < |button.labels| && ConfirmedSets(a) :: button.labels[a]
  }

  /** The labels one button's pass sets are among those of the whole refresh. */
  lemma ConfirmedLabelsOfInGroup(group: VerticalButtonGroup, i: nat)
    requires i < |group.buttons|
    ensures ConfirmedLabelsOf(group.buttons[i]) <= ConfirmedLabels(group)
  {
    forall l | l in ConfirmedLabelsOf(group.buttons[i])
      ensures l in ConfirmedLabels(group)
    {
      var a :| 0 <= a < |group.buttons[i].labels| && ConfirmedSets(a) && l == group.buttons[i].labels[a];
      assert l == group.buttons[i].labels[a];
    }
  }

  /** The labels of one button set to show the confirmed block. */
  method ShowConfirmedButton(button: BlockButton, time: BlockTime, chainHeight: Option<int>, feeRate: Option<real>, unit: string)
    requires button.Valid()
    modifies ConfirmedLabelsOf(button)
    ensures button.Valid()
    ensures ConfirmedShown(button, time, chainHeight, feeRate, unit)
  {
    var labels := button.labels;
    labels[Title].SetText(Strings.HtmlF("Block " + FormatBlockNumber(time.height), TextColor(Confirmed), "16px", false));
    if chainHeight.None? {
      labels[NumberConfirmations].SetText("");
      labels[BlockHeight].SetText(Strings.HtmlF(Strings.IntToString(time.height) + ". Block", TextColor(Confirmed), "12px", false));
    } else {
      labels[NumberConfirmations].SetText(Strings.HtmlF(ConfirmationsText(chainHeight.value - time.height + 1), TextColor(Confirmed), "12px", false));
      labels[BlockHeight].SetText("");
    }
    labels[Explorer].SetText(Strings.HtmlF(ExplorerText, TextColor(Confirmed), "10px", false));
    if feeRate.Some? && feeRate.value != 0.0 {
      labels[ExactMedianFee].SetText(Strings.HtmlF(ExactFeeText(feeRate.value, unit), TextColor(Confirmed), "12px", false));
    } else {
      labels[ExactMedianFee].SetText("");
    }
  }
}
