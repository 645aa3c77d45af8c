/**
 * The control bar: a container of player controls that, in auto-hide mode,
 * follows the host's show and hide signals and vetoes a hide while any of its
 * controls is hovered.
 *
 * The behaviour is given twice: as a pure state machine (`Step`, `Run`,
 * `Cancel`) about which the lemmas speak, and as the class `ControlBar` whose
 * handler methods update their fields in place and are proved to follow `Step`.
 */
module ControlBarModel {
  import opened ComponentTree

  datatype Option<T> = None | Some(value: T)

  /** The configuration a caller supplies; a missing entry falls back to the control bar's default. */
  datatype SuppliedConfig = SuppliedConfig(cssClass: Option<string>, hidden: Option<bool>)

  /** The configuration the control bar runs with. `hidden` is what makes it an auto-hiding bar. */
  datatype BarConfig = BarConfig(cssClass: string, hidden: bool)

  const DefaultCssClass: string := "ui-controlbar"

  /** The control bar's defaults, overridden entry by entry by what the caller supplied. */
  function MergeConfig(supplied: SuppliedConfig, autoHide: bool): (cfg: BarConfig)
    ensures supplied.hidden == None ==> cfg.hidden == autoHide
    ensures supplied.hidden != None ==> cfg.hidden == supplied.hidden.value
    ensures supplied.cssClass == None ==> cfg.cssClass == DefaultCssClass
    ensures supplied.cssClass != None ==> cfg.cssClass == supplied.cssClass.value
  {
    BarConfig(
      match supplied.cssClass case Some(c) => c case None => DefaultCssClass,
      match supplied.hidden case Some(h) => h case None => autoHide)
  }

  /**
   * Everything about the bar that the signals can change: whether it is shown,
   * whether `configure` has subscribed its handlers, how many times each
   * component's hover event is subscribed, and the hover counter.
   */
  datatype BarState = BarState(visible: bool, configured: bool, subscriptions: multiset<nat>, hoverCount: int)

  /** The signals the bar reacts to. */
  datatype Event =
    | HoverChanged(source: nat, hovered: bool)
    | ControlsShow
    | PreviewControlsHide
    | ControlsHide

  /** Right after construction: shown unless configured hidden, no handler subscribed yet. */
  function InitialState(cfg: BarConfig): BarState {
    BarState(!cfg.hidden, false, multiset{}, 0)
  }

  /** `configure`: a fresh counter at zero and one subscription per tracked component met by the walk. */
  function ConfiguredState(s: BarState, root: Component): BarState {
    s.(configured := true, subscriptions := multiset(Subscribed(Traverse(root))), hoverCount := 0)
  }

  /** Each subscription of the hovered component adds one on enter and takes one away on exit. */
  function HoverDelta(subscriptions: multiset<nat>, source: nat, hovered: bool): int {
    if hovered then subscriptions[source] else -(subscriptions[source] as int)
  }

  /** The effect of one signal on a bar whose configured `hidden` flag is `hidden`. */
  function Step(hidden: bool, s: BarState, e: Event): BarState {
    if !s.configured then s
    else
      match e
      case HoverChanged(source, hovered) =>
        s.(hoverCount := s.hoverCount + HoverDelta(s.subscriptions, source, hovered))
      case ControlsShow => if hidden then s.(visible := true) else s
      case PreviewControlsHide => s
      case ControlsHide => if hidden then s.(visible := false) else s
  }

  /** The `cancel` flag of a preview-hide query once the bar has answered it. */
  function Cancel(s: BarState, cancel: bool): bool {
    if s.configured then s.hoverCount > 0 else cancel
  }

  /** The state after a sequence of signals, in order. */
  function Run(hidden: bool, s: BarState, events: seq<Event>): BarState
    decreases |events|
  {
    if events == [] then s else Run(hidden, Step(hidden, s, events[0]), events[1..])
  }

  function Enters(events: seq<Event>): nat {
    if events == [] then 0
    else (if events[0].HoverChanged? && events[0].hovered then 1 else 0) + Enters(events[1..])
  }

  function Exits(events: seq<Event>): nat {
    if events == [] then 0
    else (if events[0].HoverChanged? && !events[0].hovered then 1 else 0) + Exits(events[1..])
  }

  /**
   * Reference definition of visibility in auto-hide mode: the most recent show
   * or hide signal decides; with none, the visibility one started with.
   */
  function LastShowHide(events: seq<Event>, visible: bool): bool
    decreases |events|
  {
    if events == [] then visible
    else
      match events[|events| - 1]
      case ControlsShow => true
      case ControlsHide => false
      case _ => LastShowHide(events[..|events| - 1], visible)
  }

  /** Hover events from components that each hold exactly one subscription. */
  ghost predicate SingleHovers(s: BarState, events: seq<Event>) {
    forall e :: e in events ==> e.HoverChanged? && s.subscriptions[e.source] == 1
  }

  // ---------------------------------------------------------------------------
  // Properties of the state machine
  // ---------------------------------------------------------------------------

  /** Running two sequences back to back is running their concatenation. */
  lemma {:induction false} RunAppend(hidden: bool, s: BarState, a: seq<Event>, b: seq<Event>)
    ensures Run(hidden, s, a + b) == Run(hidden, Run(hidden, s, a), b)
    decreases |a|
  {
    if a == [] {
      assert a + b == b;
    } else {
      assert (a + b)[0] == a[0];
      assert (a + b)[1..] == a[1..] + b;
      RunAppend(hidden, Step(hidden, s, a[0]), a[1..], b);
    }
  }

  /** A signal never alters the configuration's subscriptions or the configured flag. */
  lemma {:induction false} RunKeepsSubscriptions(hidden: bool, s: BarState, events: seq<Event>)
    ensures Run(hidden, s, events).configured == s.configured
    ensures Run(hidden, s, events).subscriptions == s.subscriptions
    decreases |events|
  {
    if events != [] {
      RunKeepsSubscriptions(hidden, Step(hidden, s, events[0]), events[1..]);
    }
  }

  /**
   * Hover events from singly subscribed components move the counter by one per
   * enter and minus one per exit, with no clamping, and change nothing else.
   */
  lemma {:induction false} HoverRunCounts(hidden: bool, s: BarState, events: seq<Event>)
    requires s.configured
    requires SingleHovers(s, events)
    ensures Run(hidden, s, events) == s.(hoverCount := s.hoverCount + Enters(events) - Exits(events))
    decreases |events|
  {
    if events != [] {
      var e := events[0];
      assert e in events;
      var s' := Step(hidden, s, e);
      assert s'.hoverCount == s.hoverCount + (if e.hovered then 1 else -1);
      assert SingleHovers(s', events[1..]) by {
        forall e' | e' in events[1..] ensures e'.HoverChanged? && s'.subscriptions[e'.source] == 1 {
          assert e' in events;
        }
      }
      HoverRunCounts(hidden, s', events[1..]);
    }
  }

  /**
   * As many exits as enters bring the counter back to where it was; from zero,
   * the next preview-hide query is then let through, whatever `cancel` held.
   */
  lemma {:induction false} BalancedHoversRestoreCounter(hidden: bool, s: BarState, events: seq<Event>, cancel: bool)
    requires s.configured
    requires SingleHovers(s, events)
    requires Enters(events) == Exits(events)
    ensures Run(hidden, s, events) == s
    ensures s.hoverCount == 0 ==> !Cancel(Run(hidden, s, events), cancel)
  {
    HoverRunCounts(hidden, s, events);
  }

  /**
   * Starting from a freshly configured bar, a hide is vetoed exactly when more
   * hover enters than exits have been reported.
   */
  lemma {:induction false} VetoIffHoverOutstanding(hidden: bool, s: BarState, events: seq<Event>, cancel: bool)
    requires s.configured && s.hoverCount == 0
    requires SingleHovers(s, events)
    ensures Cancel(Run(hidden, s, events), cancel) <==> Enters(events) > Exits(events)
  {
    HoverRunCounts(hidden, s, events);
  }

  /** Without auto-hide, no sequence of signals changes the bar's visibility. */
  lemma {:induction false} StaticWithoutAutoHide(s: BarState, events: seq<Event>)
    ensures Run(false, s, events).visible == s.visible
    decreases |events|
  {
    if events != [] {
      StaticWithoutAutoHide(Step(false, s, events[0]), events[1..]);
    }
  }

  /** Show and hide signals leave the hover counter alone, in either mode. */
  lemma {:induction false} ShowHideKeepCounter(hidden: bool, s: BarState, events: seq<Event>)
    requires forall e :: e in events ==> !e.HoverChanged?
    ensures Run(hidden, s, events).hoverCount == s.hoverCount
    decreases |events|
  {
    if events != [] {
      assert events[0] in events;
      assert forall e :: e in events[1..] ==> e in events;
      ShowHideKeepCounter(hidden, Step(hidden, s, events[0]), events[1..]);
    }
  }

  /** In auto-hide mode, once configured, the bar is shown exactly when the last show or hide signal was a show. */
  lemma {:induction false} AutoHideFollowsLastSignal(s: BarState, events: seq<Event>)
    requires s.configured
    ensures Run(true, s, events).visible == LastShowHide(events, s.visible)
    decreases |events|
  {
    if events != [] {
      var n := |events| - 1;
      var init := events[..n];
      assert events == init + [events[n]];
      RunAppend(true, s, init, [events[n]]);
      RunKeepsSubscriptions(true, s, init);
      AutoHideFollowsLastSignal(s, init);
    }
  }

  /** Before `configure`, no signal reaches the bar. */
  lemma {:induction false} UnconfiguredIgnoresSignals(hidden: bool, s: BarState, events: seq<Event>)
    requires !s.configured
    ensures Run(hidden, s, events) == s
    decreases |events|
  {
    if events != [] {
      UnconfiguredIgnoresSignals(hidden, s, events[1..]);
    }
  }

  /**
   * On a bar configured over `root` in which every component object appears
   * once, a hover event from a visited control moves the counter by exactly
   * one, and one from a container or spacer leaves the whole state unchanged.
   */
  lemma HoverFromVisitedNode(hidden: bool, s0: BarState, root: Component, k: nat, hovered: bool)
    requires DistinctIds(Traverse(root))
    requires k < |Traverse(root)|
    ensures var s := ConfiguredState(s0, root);
            var n := Traverse(root)[k];
            Step(hidden, s, HoverChanged(n.id, hovered))
              == if IsTracked(n) then s.(hoverCount := if hovered then 1 else -1) else s
  {
    SubscriptionCount(Traverse(root), k);
  }

  /**
   * Nothing keeps an unmatched exit from driving the counter negative, and a
   * control that enters afterwards then fails to veto the next hide.
   */
  lemma UnmatchedExitLosesVeto(hidden: bool, s: BarState, early: nat, hovering: nat, cancel: bool)
    requires s.configured && s.hoverCount == 0
    requires s.subscriptions[early] == 1 && s.subscriptions[hovering] == 1
    ensures Step(hidden, s, HoverChanged(early, false)).hoverCount == -1
    ensures !Cancel(Run(hidden, s, [HoverChanged(early, false), HoverChanged(hovering, true)]), cancel)
  {
    var events := [HoverChanged(early, false), HoverChanged(hovering, true)];
    var tail := events[1..];
    assert tail == [HoverChanged(hovering, true)] && tail[1..] == [];
    assert Enters(tail) == 1 && Exits(tail) == 0;
    assert Enters(events) == 1 && Exits(events) == 1;
    HoverRunCounts(hidden, s, events);
  }

  // ---------------------------------------------------------------------------
  // The control bar object
  // ---------------------------------------------------------------------------

  class ControlBar {
    const id: nat
    const components: seq<Component>
    const config: BarConfig
    var visible: bool
    var configured: bool
    var subscriptions: multiset<nat>
    var hoverCount: int

    function State(): BarState
      reads this
    {
      BarState(visible, configured, subscriptions, hoverCount)
    }

    /** The bar itself, as the root of the walk `configure` makes. */
    function Root(): Component {
      Container(id, components)
    }

    /** A new bar: hidden from the start exactly when it is configured hidden, by default when auto-hiding. */
    constructor (id: nat, components: seq<Component>, supplied: SuppliedConfig, autoHide: bool)
      ensures this.id == id && this.components == components
      ensures config == MergeConfig(supplied, autoHide)
      ensures State() == InitialState(config)
    {
      this.id := id;
      this.components := components;
      config := MergeConfig(supplied, autoHide);
      visible := !MergeConfig(supplied, autoHide).hidden;
      configured := false;
      subscriptions := multiset{};
      hoverCount := 0;
    }

    /**
     * Subscribes one hover handler per visited component that is neither a
     * container nor a spacer, and starts the counter they share at zero.
     */
    method Configure()
      requires !configured
      modifies this
      ensures State() == ConfiguredState(old(State()), Root())
    {
      var subs := CollectSubscriptions(Traverse(Root()));
      configured := true;
      subscriptions := subs;
      hoverCount := 0;
    }

    /** A component reported that it is now hovered, or no longer hovered. */
    method OnHoverChanged(source: nat, hovered: bool)
      modifies this
      ensures State() == Step(config.hidden, old(State()), HoverChanged(source, hovered))
    {
      if configured {
        var n := subscriptions[source];
        if hovered {
          hoverCount := hoverCount + n;
        } else {
          hoverCount := hoverCount - n;
        }
      }
    }

    /** The host is about to show the controls: an auto-hiding bar shows itself. */
    method OnControlsShow()
      modifies this
      ensures State() == Step(config.hidden, old(State()), ControlsShow)
    {
      if configured && config.hidden {
        visible := true;
      }
    }

    /**
     * The host asks whether the controls may be hidden. The answer overwrites
     * whatever `cancel` held: cancel exactly when some hover is outstanding.
     */
    method OnPreviewControlsHide(cancel: bool) returns (cancelled: bool)
      ensures configured ==> (cancelled <==> hoverCount > 0)
      ensures !configured ==> cancelled == cancel
      ensures cancelled == Cancel(State(), cancel)
    {
      cancelled := cancel;
      if configured {
        cancelled := hoverCount > 0;
      }
    }

    /** The host hides the controls: an auto-hiding bar hides itself. */
    method OnControlsHide()
      modifies this
      ensures State() == Step(config.hidden, old(State()), ControlsHide)
    {
      if configured && config.hidden {
        visible := false;
      }
    }
  }

  /**
   * An auto-hiding bar with one control: while the control is hovered a hide
   * is vetoed; once it is left, the hide goes through and the bar is hidden.
   */
  method HoverVetoScenario() returns (vetoedWhileHovered: bool, vetoedAfterLeave: bool, visibleAtEnd: bool)
    ensures vetoedWhileHovered && !vetoedAfterLeave && !visibleAtEnd
  {
    var bar := new ControlBar(0, [Control(1)], SuppliedConfig(None, None), true);
    bar.Configure();
    assert Traverse(bar.Root()) == [Container(0, [Control(1)]), Control(1)];
    assert bar.subscriptions == multiset{1};
    bar.OnControlsShow();
    bar.OnHoverChanged(1, true);
    vetoedWhileHovered := bar.OnPreviewControlsHide(false);
    bar.OnHoverChanged(1, false);
    vetoedAfterLeave := bar.OnPreviewControlsHide(true);
    bar.OnControlsHide();
    visibleAtEnd := bar.visible;
  }
}
