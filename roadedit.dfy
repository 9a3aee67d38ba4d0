/**
 * The road editor's properties panel for the inspected intersection: four
 * light-policy buttons (no lights, traffic lights, stop signs, automatic),
 * four turn-policy toggles (left turns, back turns, crosswalks, roundabout)
 * and, with a roundabout, its radius. Every edit raises the editor's
 * `dirty` flag, which this panel never lowers.
 *
 * The button clicks of a frame, the value the radius widget reports when it
 * changed the radius, and `Roundabout::default()` from the map crate are
 * given as inputs.
 */
module RoadEditor {
  import opened Wrappers

  datatype LightPolicy = NoLights | Lights | StopSigns | Auto

  /** The light-policy buttons, in the order they are shown. */
  const LightChoices: seq<LightPolicy> := [NoLights, Lights, StopSigns, Auto]

  /** The turn-policy toggles, in the order they are shown; the fourth is "has a roundabout". */
  const TurnToggles := 4

  /** A roundabout; only its radius is edited here. */
  datatype Roundabout = Roundabout(radius: real)

  datatype TurnPolicy = TurnPolicy(leftTurns: bool, backTurns: bool, crosswalks: bool, roundabout: Option<Roundabout>)

  /** The inspected intersection's editable properties. */
  datatype IntersectionView = IntersectionView(lightPolicy: LightPolicy, turnPolicy: TurnPolicy)

  /**
   * One frame of clicks: one per light-policy button, one per turn toggle,
   * and the new radius when the radius widget changed it.
   */
  datatype RoadEditInput = RoadEditInput(lightClicks: seq<bool>, turnClicks: seq<bool>, radiusEdit: Option<real>)

  predicate WellFormed(input: RoadEditInput)
  {
    |input.lightClicks| == |LightChoices| && |input.turnClicks| == TurnToggles
  }

  /** The light policy after the first `|clicks|` buttons were handled: a click selects its button's policy. */
  function PolicyAfter(p: LightPolicy, clicks: seq<bool>): LightPolicy
    requires |clicks| <= |LightChoices|
    decreases |clicks|
  {
    if clicks == [] then p
    else if clicks[|clicks| - 1] then LightChoices[|clicks| - 1]
    else PolicyAfter(p, clicks[..|clicks| - 1])
  }

  /** Without clicks the policy stays; otherwise the last clicked button's policy is selected. */
  lemma {:induction false} PolicyAfterMeaning(p: LightPolicy, clicks: seq<bool>)
    requires |clicks| <= |LightChoices|
    ensures (forall i :: 0 <= i < |clicks| ==> !clicks[i]) ==> PolicyAfter(p, clicks) == p
    ensures forall i :: 0 <= i < |clicks| && clicks[i] && (forall j :: i < j < |clicks| ==> !clicks[j]) ==>
      PolicyAfter(p, clicks) == LightChoices[i]
    decreases |clicks|
  {
    if clicks != [] {
      PolicyAfterMeaning(p, clicks[..|clicks| - 1]);
    }
  }

  /**
   * Which light buttons are drawn as selected: each button compares itself
   * with the policy as it stands when the button is drawn, i.e. after the
   * clicks on the buttons to its left.
   */
  function ShownSelected(p: LightPolicy, clicks: seq<bool>): (r: seq<bool>)
    requires |clicks| == |LightChoices|
    ensures |r| == |LightChoices|
    ensures forall i :: 0 <= i < |r| ==> (r[i] <==> PolicyAfter(p, clicks[..i]) == LightChoices[i])
  {
    seq(|LightChoices|, i requires 0 <= i < |LightChoices| => PolicyAfter(p, clicks[..i]) == LightChoices[i])
  }

  /** A policy a prefix of the clicks arrives at is the start policy or the policy of a clicked button. */
  lemma {:induction false} PolicyAfterSource(p: LightPolicy, clicks: seq<bool>, i: nat)
    requires i <= |clicks| <= |LightChoices|
    ensures PolicyAfter(p, clicks[..i]) == p
            || exists k :: 0 <= k < i && clicks[k] && PolicyAfter(p, clicks[..i]) == LightChoices[k]
    decreases i
  {
    if i > 0 {
      assert clicks[..i][..i - 1] == clicks[..i - 1];
      PolicyAfterSource(p, clicks, i - 1);
    }
  }

  /** Once a button is drawn as selected, a later button can only be selected if no button in between was clicked. */
  lemma {:induction false} PolicyStableWithoutClicks(p: LightPolicy, clicks: seq<bool>, i: nat, j: nat)
    requires i <= j <= |clicks| <= |LightChoices|
    requires forall k :: i <= k < j ==> !clicks[k]
    ensures PolicyAfter(p, clicks[..j]) == PolicyAfter(p, clicks[..i])
    decreases j
  {
    if j > i {
      assert clicks[..j][..j - 1] == clicks[..j - 1];
      PolicyStableWithoutClicks(p, clicks, i, j - 1);
    }
  }

  /** The policy after a clicked button and then no further clicks up to `j` is that button's policy. */
  lemma LastClickDecides(p: LightPolicy, clicks: seq<bool>, k: nat, j: nat)
    requires k < j <= |clicks| <= |LightChoices|
    requires clicks[k] && forall m :: k < m < j ==> !clicks[m]
    ensures PolicyAfter(p, clicks[..j]) == LightChoices[k]
  {
    assert clicks[..k + 1][..k] == clicks[..k];
    PolicyStableWithoutClicks(p, clicks, k + 1, j);
  }

  /** At most one light-policy button is drawn as selected in a frame. */
  lemma AtMostOneShownSelected(p: LightPolicy, clicks: seq<bool>, i: nat, j: nat)
    requires |clicks| == |LightChoices|
    requires i < j < |LightChoices|
    ensures !(ShownSelected(p, clicks)[i] && ShownSelected(p, clicks)[j])
  {
    if ShownSelected(p, clicks)[i] && ShownSelected(p, clicks)[j] {
      if forall k :: i <= k < j ==> !clicks[k] {
        PolicyStableWithoutClicks(p, clicks, i, j);
      } else {
        var k :| i <= k < j && clicks[k];
        var last := LastClickBefore(clicks, k, j);
        LastClickDecides(p, clicks, last, j);
      }
    }
  }

  /** The last clicked index in `[k, j)`, given that `k` is clicked. */
  function LastClickBefore(clicks: seq<bool>, k: nat, j: nat): (last: nat)
    requires k < j <= |clicks| && clicks[k]
    ensures k <= last < j && clicks[last]
    ensures forall m :: last < m < j ==> !clicks[m]
    decreases j - k
  {
    if j - 1 == k then k
    else if clicks[j - 1] then j - 1
    else LastClickBefore(clicks, k, j - 1)
  }

  /** Without clicks, exactly the current policy's button is drawn as selected. */
  lemma ShownSelectedWithoutClicks(p: LightPolicy, clicks: seq<bool>)
    requires |clicks| == |LightChoices|
    requires forall k :: 0 <= k < |clicks| ==> !clicks[k]
    ensures forall i :: 0 <= i < |LightChoices| ==> (ShownSelected(p, clicks)[i] <==> LightChoices[i] == p)
  {
    forall i | 0 <= i < |LightChoices|
      ensures ShownSelected(p, clicks)[i] <==> LightChoices[i] == p
    {
      PolicyStableWithoutClicks(p, clicks, 0, i);
      assert clicks[..0] == [];
    }
  }

  /** The four turn flags, in the order of the toggles. */
  function TurnFlags(t: TurnPolicy): (r: seq<bool>)
    ensures |r| == TurnToggles
  {
    [t.leftTurns, t.backTurns, t.crosswalks, t.roundabout.Some?]
  }

  /** The roundabout after the toggle and the radius widget. */
  function RoundaboutAfter(old_: Option<Roundabout>, hasRoundabout: bool, radiusEdit: Option<real>,
                           defaultRoundabout: Roundabout): (r: Option<Roundabout>)
    ensures r.Some? <==> hasRoundabout
    ensures hasRoundabout && old_.Some? ==> r.value.radius == radiusEdit.UnwrapOr(old_.value.radius)
    ensures hasRoundabout && old_.None? ==> r.value.radius == radiusEdit.UnwrapOr(defaultRoundabout.radius)
  {
    var synced := if hasRoundabout == old_.Some? then old_
                  else if hasRoundabout then Some(defaultRoundabout) else None;
    match synced
    case None => None
    case Some(rb) => Some(rb.(radius := radiusEdit.UnwrapOr(rb.radius)))
  }

  /** The inspected intersection after one frame of the panel. */
  function EditView(v: IntersectionView, input: RoadEditInput, defaultRoundabout: Roundabout): (r: IntersectionView)
    requires WellFormed(input)
    ensures r.lightPolicy == PolicyAfter(v.lightPolicy, input.lightClicks)
    ensures forall i :: 0 <= i < TurnToggles ==>
      TurnFlags(r.turnPolicy)[i] == (TurnFlags(v.turnPolicy)[i] != input.turnClicks[i])
  {
    var flags := TurnFlags(v.turnPolicy);
    var t := input.turnClicks;
    IntersectionView(
      PolicyAfter(v.lightPolicy, input.lightClicks),
      TurnPolicy(flags[0] != t[0], flags[1] != t[1], flags[2] != t[2],
                 RoundaboutAfter(v.turnPolicy.roundabout, flags[3] != t[3], input.radiusEdit, defaultRoundabout)))
  }

  /** Whether the frame raises `dirty`: any click, or a radius change on a roundabout. */
  predicate RaisesDirty(v: IntersectionView, input: RoadEditInput)
    requires WellFormed(input)
  {
    (exists i :: 0 <= i < |input.lightClicks| && input.lightClicks[i])
    || (exists i :: 0 <= i < |input.turnClicks| && input.turnClicks[i])
    || (input.radiusEdit.Some? && (TurnFlags(v.turnPolicy)[3] != input.turnClicks[3]))
  }

  /** A frame without clicks or edits leaves the intersection as it is. */
  lemma QuietFrameChangesNothing(v: IntersectionView, input: RoadEditInput, defaultRoundabout: Roundabout)
    requires WellFormed(input) && input.radiusEdit.None?
    requires forall i :: 0 <= i < |input.lightClicks| ==> !input.lightClicks[i]
    requires forall i :: 0 <= i < |input.turnClicks| ==> !input.turnClicks[i]
    ensures EditView(v, input, defaultRoundabout) == v
    ensures !RaisesDirty(v, input)
  {
    PolicyAfterMeaning(v.lightPolicy, input.lightClicks);
  }

  /** The input that clicks only turn toggle `k`. */
  function ClickTurn(k: nat): (r: RoadEditInput)
    requires k < TurnToggles
    ensures WellFormed(r)
  {
    RoadEditInput([false, false, false, false], seq(TurnToggles, i => i == k), None)
  }

  /**
   * Clicking the same turn toggle on two frames restores the intersection,
   * except that a roundabout switched off and on again comes back as the
   * default roundabout.
   */
  lemma ToggleTwice(v: IntersectionView, k: nat, defaultRoundabout: Roundabout)
    requires k < TurnToggles
    ensures var w := EditView(EditView(v, ClickTurn(k), defaultRoundabout), ClickTurn(k), defaultRoundabout);
      && (k < 3 || v.turnPolicy.roundabout.None? ==> w == v)
      && (k == 3 && v.turnPolicy.roundabout.Some? ==> w == v.(turnPolicy := v.turnPolicy.(roundabout := Some(defaultRoundabout))))
  {
    var c := ClickTurn(k);
    var w1 := EditView(v, c, defaultRoundabout);
    PolicyAfterMeaning(v.lightPolicy, c.lightClicks);
    PolicyAfterMeaning(w1.lightPolicy, c.lightClicks);
  }

  /**
   * The light-policy buttons, drawn and handled left to right: each is drawn
   * selected when it matches the policy as it stands, and a click selects
   * its policy.
   */
  method LightButtons(p: LightPolicy, clicks: seq<bool>) returns (policy: LightPolicy, selected: seq<bool>, clicked: bool)
    requires |clicks| == |LightChoices|
    ensures policy == PolicyAfter(p, clicks)
    ensures selected == ShownSelected(p, clicks)
    ensures clicked <==> exists k :: 0 <= k < |clicks| && clicks[k]
  {
    policy, selected, clicked := p, [], false;
    for i := 0 to |LightChoices|
      invariant policy == PolicyAfter(p, clicks[..i])
      invariant selected == ShownSelected(p, clicks)[..i]
      invariant clicked <==> exists k :: 0 <= k < i && clicks[k]
    {
      var enabled := policy == LightChoices[i];
      assert enabled == ShownSelected(p, clicks)[i];
      if clicks[i] {
        policy := LightChoices[i];
        clicked := true;
      }
      selected := selected + [enabled];
      assert clicks[..i + 1][..i] == clicks[..i];
      assert ShownSelected(p, clicks)[..i + 1] == ShownSelected(p, clicks)[..i] + [enabled];
    }
    assert clicks[..|LightChoices|] == clicks;
    assert ShownSelected(p, clicks)[..|LightChoices|] == ShownSelected(p, clicks);
  }

  /**
   * The turn toggles, drawn and handled left to right: a click flips its
   * flag, and a toggle that is off afterwards is drawn crossed out.
   */
  method TurnButtons(flags0: seq<bool>, clicks: seq<bool>) returns (flags: seq<bool>, forbidden: seq<bool>, clicked: bool)
    requires |flags0| == |clicks| == TurnToggles
    ensures |flags| == |forbidden| == TurnToggles
    ensures forall k :: 0 <= k < TurnToggles ==> flags[k] == (flags0[k] != clicks[k]) && forbidden[k] == !flags[k]
    ensures clicked <==> exists k :: 0 <= k < |clicks| && clicks[k]
  {
    flags, forbidden, clicked := flags0, [], false;
    for i := 0 to TurnToggles
      invariant |flags| == TurnToggles && |forbidden| == i
      invariant forall k :: 0 <= k < TurnToggles ==> flags[k] == if k < i then flags0[k] != clicks[k] else flags0[k]
      invariant forall k :: 0 <= k < i ==> forbidden[k] == !flags[k]
      invariant clicked <==> exists k :: 0 <= k < i && clicks[k]
    {
      if clicks[i] {
        flags := flags[i := !flags[i]];
        clicked := true;
      }
      forbidden := forbidden + [!flags[i]];
    }
  }

  /**
   * The roundabout brought in line with its toggle (a default one when it
   * was switched on, none when switched off), then the radius widget.
   */
  method SyncRoundabout(roundabout0: Option<Roundabout>, hasRoundabout: bool, radiusEdit: Option<real>,
                        defaultRoundabout: Roundabout) returns (roundabout: Option<Roundabout>, changed: bool)
    ensures roundabout == RoundaboutAfter(roundabout0, hasRoundabout, radiusEdit, defaultRoundabout)
    ensures changed <==> hasRoundabout != roundabout0.Some? || (hasRoundabout && radiusEdit.Some?)
  {
    roundabout, changed := roundabout0, false;
    if hasRoundabout != roundabout.Some? {
      roundabout := if hasRoundabout then Some(defaultRoundabout) else None;
      changed := true;
    }
    if roundabout.Some? && radiusEdit.Some? {
      roundabout := Some(roundabout.value.(radius := radiusEdit.value));
      changed := true;
    }
  }

  /**
   * The panel's widgets for an inspected intersection, left to right: the
   * light-policy buttons, the turn toggles, then the roundabout. Returns the
   * edited intersection, what was drawn, and whether anything was edited.
   */
  method EditPanel(v0: IntersectionView, input: RoadEditInput, defaultRoundabout: Roundabout)
    returns (v: IntersectionView, selected: seq<bool>, forbidden: seq<bool>, raised: bool)
    requires WellFormed(input)
    ensures v == EditView(v0, input, defaultRoundabout)
    ensures raised == RaisesDirty(v0, input)
    ensures selected == ShownSelected(v0.lightPolicy, input.lightClicks)
    ensures |forbidden| == TurnToggles
    ensures forall i :: 0 <= i < TurnToggles ==> forbidden[i] == !TurnFlags(v.turnPolicy)[i]
  {
    var policy, lightClicked;
    policy, selected, lightClicked := LightButtons(v0.lightPolicy, input.lightClicks);
    var flags, turnClicked;
    flags, forbidden, turnClicked := TurnButtons(TurnFlags(v0.turnPolicy), input.turnClicks);
    var roundabout, roundaboutChanged := SyncRoundabout(v0.turnPolicy.roundabout, flags[3], input.radiusEdit, defaultRoundabout);
    v := IntersectionView(policy, TurnPolicy(flags[0], flags[1], flags[2], roundabout));
    raised := lightClicked || turnClicked || roundaboutChanged;
  }

  /** The road editor resource: the intersection being inspected, if any, and the unsaved-edits flag. */
  class RoadEditorResource {
    var inspect: Option<IntersectionView>
    var dirty: bool

    /**
     * One frame of `roadedit_properties`. Returns which light buttons were
     * drawn as selected and which turn toggles were drawn crossed out
     * (forbidden); both are empty when nothing is inspected.
     */
    method RoadEditProperties(input: RoadEditInput, defaultRoundabout: Roundabout)
      returns (selected: seq<bool>, forbidden: seq<bool>)
      requires WellFormed(input)
      modifies this
      ensures old(inspect).None? ==> inspect == old(inspect) && dirty == old(dirty) && selected == [] && forbidden == []
      ensures old(inspect).Some? ==>
        && inspect == Some(EditView(old(inspect).value, input, defaultRoundabout))
        && dirty == (old(dirty) || RaisesDirty(old(inspect).value, input))
        && selected == ShownSelected(old(inspect).value.lightPolicy, input.lightClicks)
        && |forbidden| == TurnToggles
        && (forall i :: 0 <= i < TurnToggles ==> forbidden[i] == !TurnFlags(inspect.value.turnPolicy)[i])
    {
      selected, forbidden := [], [];
      if inspect.None? {
        return;
      }
      var v, raised;
      v, selected, forbidden, raised := EditPanel(inspect.value, input, defaultRoundabout);
      if raised {
        dirty := true;
      }
      inspect := Some(v);
    }
  }
}
