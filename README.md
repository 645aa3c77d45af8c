# Control bar hover-aware auto-hide, in Dafny

This project models `ControlBar` from a video-player UI toolkit. The control bar is a container for the
player's main controls: play toggle, seek bar, volume and fullscreen buttons. When it is built in
auto-hide mode, its configured `hidden` flag is set. In that mode it follows the host's "controls show"
and "controls hide" signals. It also answers the host's cancelable "preview controls hide" query by
vetoing the hide while any of its controls is hovered. To know that, `configure` walks the bar's
component tree. It skips containers and spacers and subscribes to the hover events of every other
component. All these handlers share one counter: it goes up by one on "hovered" and down by one on
"not hovered", with no clamping.

Two modules:

- `ComponentTree` (`tree.dfy`) defines the component tree (`Container`, `Spacer`, `Control`) and a
  pre-order walk of it. It also gives the list of components whose hover events get a subscription,
  plus a structural reference definition of a tree's controls.
- `ControlBarModel` (`controlbar.dfy`) holds the behaviour in two forms. First, a pure state machine:
  `Step` handles one signal, `Run` a sequence of them, and `Cancel` answers a preview-hide query. The
  lemmas are stated about this machine. Second, the class `ControlBar`, whose fields stand for the
  object's configuration (`config`), its shown/hidden state (`visible`, the inverse of the inherited
  `hidden` flag), the counter captured by the handler closures (`hoverCount`) and the hover handlers
  registered with the components' event dispatchers (`subscriptions`). Its constructor, `Configure`
  and handler methods update those fields in place, and each is proved to follow `InitialState`,
  `ConfiguredState` or `Step`.

The counter `hoverStackCount` is a local of `configure` shared by the handler closures
(controlbar.ts:34); the model keeps it in the field `hoverCount`. Each registered hover handler is one
entry in the multiset `subscriptions`. If a component object appeared twice in the tree, it would
be subscribed twice and move the counter by two; the multiset models that. Signals that arrive before
`configure` reach no handler, so they change nothing.

Two notes on the code:
- "Controls show" tests only the configured `hidden` flag (controlbar.ts:54), not the current
  visibility; showing a shown bar leaves it shown.
- Nothing keeps the counter non-negative (controlbar.ts:47-48); `UnmatchedExitLosesVeto` shows what
  follows.

## Model

| member | source | states |
|---|---|---|
| `ControlBarModel.MergeConfig` | lib/uimanager/components/controlbar.ts:19-25 | the bar's `hidden` defaults to the `autoHide` argument and its CSS class to `ui-controlbar`; a value the caller supplies takes precedence |
| `ControlBarModel.ControlBar.constructor` | lib/uimanager/components/controlbar.ts:19-25 | a new bar has the merged configuration and starts hidden exactly when that configuration says hidden (by default: when auto-hiding); no handler is subscribed yet and the counter is 0 |
| `ControlBarModel.ControlBar.Configure` | lib/uimanager/components/controlbar.ts:31-51 | the counter starts at 0 and there is one subscription per visited component of the bar's walk that is neither a container nor a spacer; visibility is untouched |
| `ComponentTree.CollectSubscriptions` | lib/uimanager/components/controlbar.ts:37-51 | applying the visit callback to every node of a walk in turn collects exactly one subscription per node that is neither a container nor a spacer |
| `ComponentTree.WalkFindsControls` | lib/uimanager/components/controlbar.ts:37-42 | walking the tree and skipping containers and spacers yields exactly the tree's controls, in order (against the structural definition `Controls`) |
| `ComponentTree.SubscriptionCount` | lib/uimanager/components/controlbar.ts:37-42 | when every component object appears once, a visited control holds exactly one subscription and a visited container or spacer none |
| `ControlBarModel.ControlBar.OnHoverChanged` | lib/uimanager/components/controlbar.ts:44-50 | the counter moves by +1 per subscription of the source on "hovered" and by -1 on "not hovered"; nothing else changes |
| `ControlBarModel.HoverFromVisitedNode` | lib/uimanager/components/controlbar.ts:37-50 | on a bar configured over a tree in which each object appears once, a hover event from a control changes the counter by exactly +1 or -1, and one from a container or spacer changes nothing |
| `ControlBarModel.HoverRunCounts` | lib/uimanager/components/controlbar.ts:44-50 | after any sequence of hover events from tracked controls, the counter equals its start plus the enters minus the exits, unclamped, and nothing else has changed |
| `ControlBarModel.BalancedHoversRestoreCounter` | lib/uimanager/components/controlbar.ts:44-62 | with as many exits as enters, the counter is back to its earlier value; starting from 0, the next preview-hide is not cancelled, whatever `cancel` held before |
| `ControlBarModel.VetoIffHoverOutstanding` | lib/uimanager/components/controlbar.ts:44-62 | from a freshly configured bar, a preview-hide is cancelled if and only if more hover enters than exits have been reported |
| `ControlBarModel.UnmatchedExitLosesVeto` | lib/uimanager/components/controlbar.ts:44-62 | an exit with no enter before it drives the counter to -1, and a control that then enters does not veto the next hide |
| `ControlBarModel.ControlBar.OnPreviewControlsHide` | lib/uimanager/components/controlbar.ts:59-62 | once configured, the answer is `cancel == (hoverCount > 0)` and overwrites the incoming flag; before configuration the flag is left as it was |
| `ControlBarModel.ControlBar.OnControlsShow` | lib/uimanager/components/controlbar.ts:53-57 | an auto-hiding bar becomes visible; otherwise nothing changes; the counter and the configuration are never touched |
| `ControlBarModel.ControlBar.OnControlsHide` | lib/uimanager/components/controlbar.ts:64-68 | an auto-hiding bar becomes hidden; otherwise nothing changes; the counter and the configuration are never touched |
| `ControlBarModel.StaticWithoutAutoHide` | lib/uimanager/components/controlbar.ts:53-68 | when the bar is not configured hidden, no sequence of signals changes its visibility |
| `ControlBarModel.AutoHideFollowsLastSignal` | lib/uimanager/components/controlbar.ts:53-68 | in auto-hide mode, the configured bar is visible exactly when the most recent show or hide signal was a show (against the reference definition `LastShowHide`) |
| `ControlBarModel.ShowHideKeepCounter` | lib/uimanager/components/controlbar.ts:53-68 | show, hide and preview-hide signals never change the hover counter |
| `ControlBarModel.RunKeepsSubscriptions` | lib/uimanager/components/controlbar.ts:44-68 | no signal changes the subscriptions or the configured flag; only `configure` sets them |
| `ControlBarModel.UnconfiguredIgnoresSignals` | lib/uimanager/components/controlbar.ts:28-69 | handlers exist only once `configure` has run, so before it no signal changes the bar |
| `ControlBarModel.RunAppend` | lib/uimanager/components/controlbar.ts:44-68 | signals are handled one at a time, to completion: handling two sequences one after the other is the same as handling their concatenation |
| `ControlBarModel.HoverVetoScenario` | lib/uimanager/components/controlbar.ts:44-68 | an auto-hiding bar with one control: a hide is vetoed while the control is hovered, is allowed once it is left, and the hide then hides the bar |

## Left out

- `BitdashController` (HLS URL and DVR offset handling) is a separate component outside the control bar and is not part of this model.
- `mergeConfig` is not part of this model. `MergeConfig` assumes that a value the caller supplies overrides the control bar's default, entry by entry. Only the `cssClass` and `hidden` entries are modelled.
- Initial visibility comes from the base component's initialisation, which is not part of this model. The constructor folds it in as "visible exactly when not configured hidden".
- `show()`/`hide()` are modelled as setting `visible`. Their DOM and CSS effects, and the show/hide events the base component fires, are not modelled.
- `UIUtils.traverseTree` is not part of this model. `Traverse` assumes a pre-order walk that starts at the bar itself and descends into every container. Component identity is an `id` number.
- `super.configure` (the base container configuring its children) and the player API argument are not modelled.
- The event dispatchers and their subscription machinery are not modelled. Each handler is a method call, and a hover event is identified by the id of the component that fires it.
- `ControlBar.Configure`: requires that `configure` has not run before. A second call would subscribe a second counter and a second set of handlers beside the first. That is not modelled.
- Unsubscribing handlers and releasing the bar are not modelled: the source does neither.
