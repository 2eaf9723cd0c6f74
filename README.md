# ViewControllerStateMachine — a Dafny model of the view-state switcher

The repository is a small UIKit demo. A screen shows one of four mutually
exclusive states: `loading`, `error`, `noContent` or `none`. It does this by
adding placeholder views to a container view and removing them again. Its only
logic is in `ViewControllerStateMachine/ViewController.swift`:

- the `ViewStates` enum, whose `String` raw values tag the views;
- `changeStateTo(state:)`, which first removes every container subview whose
  `accessibilityIdentifier` equals the raw value of the state held *before* the
  call; then, unless the new state is `.none`, adds that state's view, pins it
  to the container and tags it with the new raw value; and finally records the
  new state;
- `StateProvider`, which starts in `.none` and owns one `loadingView`, one
  `errorView` and one `noContentView`, reused on every transition.

The core is tiny: one enum, one switch and one filter. The model abstracts away
all of UIKit. The container's `subviews` is a sequence of records
`Subview(viewId, identifier)`: a view's identity and its
`accessibilityIdentifier` (a Swift `String?`, here `Option<string>`).

Modules, one file each:

- `wrappers.dfy` (`Wrappers`): `Option`.
- `view_states.dfy` (`ViewStates`): the enum, its raw values, and Swift's
  synthesised `init?(rawValue:)` as their inverse.
- `subviews.dfy` (`Subviews`): Swift's `filter` over the subviews, and the
  removals and tag updates built from it, with their algebra (order kept,
  partition, composition, distinct views).
- `container_view.dfy` (`ContainerView`): the container as a class with a mutable
  `subviews` sequence. It has `addSubview`, a child's `removeFromSuperview`,
  setting a child's identifier, and the superview guard of
  `addConstraintsToSuperView`.
- `state_spec.dfy` (`StateSpec`): the effect of one transition as a function of
  the subviews before it (`Transition`). It also holds the switcher's invariant
  (`Consistent`) and the lemmas about both: the invariant is preserved, the
  presentation is exclusive, nothing else changes, and a repeated state changes
  nothing. Runs of any number of taps are covered too.
- `state_provider.dfy` (`StateProviders`): `StateProvider` as a class. Its
  mutable `currentState` and its three placeholder views are fields, and it
  refers to the container. `ChangeStateTo`, `SetUpAndAddView` and
  `RemoveContainerSubviews` are methods proved against `Transition`.

Points where the model follows the code, not a prose summary of it:

- The placeholder views are created once, with the provider (lines 57-73). They
  are not created on each transition. The model keeps one record per view and
  gives each a fresh identity at construction (`FreshId`).
- `setUpAndAddView` adds the view, then pins it, then sets its identifier
  (lines 39-41). The model keeps that order. The pinning guard (lines 119-121)
  is therefore a precondition that `SetUpAndAddView` always meets.
- Removal compares identifiers with the raw value of the *previous* state,
  including `.none` (line 45). A transition out of `.none` therefore removes any
  unrelated subview whose identifier happens to be `"none"`.
  `StateSpec.TransitionMembers` states this as written. The invariant lemmas
  assume no unrelated subview carries one of the four state tags
  (`NoForeignStateTags`).
- UIKit's `addSubview` moves a view that is already a child to the top instead
  of adding it twice. `Container.AddSubview` models that: it detaches the view,
  then appends it. In `ChangeStateTo` the view is never already present
  (`StateSpec.AddingNextView`), so there it is a plain append.

## Model

| member | source | states |
|---|---|---|
| `ViewStates.FromRawValue` | ViewControllerStateMachine/ViewController.swift:3-8 | decoding a string gives a state exactly when the string is that state's raw value, and none when it is no state's raw value |
| `ViewStates.RawValueRoundTrip` | ViewControllerStateMachine/ViewController.swift:3-8 | the raw value of every state decodes back to that state |
| `ViewStates.RawValueInjective` | ViewControllerStateMachine/ViewController.swift:3-8 | the four raw values "loading", "error", "noContent", "none" are pairwise distinct, so a tag names one state |
| `ViewStates.IsStateTagIff` | ViewControllerStateMachine/ViewController.swift:3-8 | an identifier is a state tag iff it is `Some` of some state's raw value |
| `Subviews.Filter` | ViewControllerStateMachine/ViewController.swift:45 | the filtered subviews are exactly those of the input that pass the test, and never more of them |
| `Subviews.FilterAppend` | ViewControllerStateMachine/ViewController.swift:45 | filtering distributes over concatenation, so the survivors keep their relative order |
| `Subviews.FilterPartition` | ViewControllerStateMachine/ViewController.swift:45-46 | the views selected for removal and the views kept together account for every subview |
| `Subviews.FilterUnique` | ViewControllerStateMachine/ViewController.swift:45-46 | a filtered collection of distinct views still holds distinct views |
| `Subviews.FreshId` | ViewControllerStateMachine/ViewController.swift:57-73 | a newly created view is none of the container's current subviews |
| `Subviews.Retagged` | ViewControllerStateMachine/ViewController.swift:41 | setting a view's identifier changes that view's identifier only; every other subview and every position stays as it was |
| `Subviews.RemovingTaggedIds` | ViewControllerStateMachine/ViewController.swift:45-46 | when views are distinct, calling `removeFromSuperview` on each view the filter selected leaves exactly the subviews whose identifier is not the tag |
| `Subviews.DetachNext` | ViewControllerStateMachine/ViewController.swift:46 | removing the next selected view after the first `i` is removing the first `i + 1` |
| `ContainerView.Container.AddSubview` | ViewControllerStateMachine/ViewController.swift:39 | the view ends up on top, present once; every other subview keeps its place; views stay distinct |
| `ContainerView.Container.RemoveSubview` | ViewControllerStateMachine/ViewController.swift:46 | the view is no longer a subview; every other subview keeps its place |
| `ContainerView.Container.SetIdentifier` | ViewControllerStateMachine/ViewController.swift:41 | the subviews become those with that view's identifier replaced |
| `ContainerView.Container.AddConstraintsToSuperView` | ViewControllerStateMachine/ViewController.swift:118-121 | pinning needs a superview; the view must be a subview of this container, and the subviews are unchanged |
| `StateSpec.Placeholders.TaggedFor` | ViewControllerStateMachine/ViewController.swift:41 | tagging a state's view keeps all three view identities, gives that view its state's raw value, leaves the other two views untouched, and keeps the placeholders well formed |
| `StateSpec.Transition` | ViewControllerStateMachine/ViewController.swift:20-36 | a transition adds at most one view, and when the new state is not `.none` the top subview carries the new state's raw value |
| `StateSpec.TransitionMembers` | ViewControllerStateMachine/ViewController.swift:20-47 | after a transition a subview is present iff it was present and not tagged with the previous state's raw value, or it is the new state's own view, newly tagged |
| `StateSpec.InitiallyConsistent` | ViewControllerStateMachine/ViewController.swift:53-77 | a provider in `.none` whose fresh placeholder views are in no container satisfies the invariant |
| `StateSpec.NoPlaceholderAfterRemoval` | ViewControllerStateMachine/ViewController.swift:44-47 | once the views tagged with the previous state are removed, none of the three placeholder views remains |
| `StateSpec.AddingNextView` | ViewControllerStateMachine/ViewController.swift:21-31 | adding the new state's view after the removal appends it without moving anything |
| `StateSpec.TransitionConsistent` | ViewControllerStateMachine/ViewController.swift:20-47 | every transition preserves the invariant: the only placeholder on screen is the new state's view, tagged with its raw value, and views stay distinct |
| `StateSpec.ExclusivePresentation` | ViewControllerStateMachine/ViewController.swift:20-53 | under the invariant and with no foreign state tags, the state-tagged subviews are exactly the current state's view (none for `.none`), tagged with the current raw value |
| `StateSpec.TransitionKeepsForeign` | ViewControllerStateMachine/ViewController.swift:45 | a transition removes from the unrelated subviews exactly those tagged with the previous state's raw value and keeps the rest in order |
| `StateSpec.ForeignUntouched` | ViewControllerStateMachine/ViewController.swift:45 | with no foreign state tags, a transition leaves every unrelated subview in place and in order, and still adds no foreign state tag |
| `StateSpec.KeptSurvivesNextRemoval` | ViewControllerStateMachine/ViewController.swift:45-46 | with no foreign state tags, what one removal leaves contains nothing that the next removal would take |
| `StateSpec.TaggedForTwice` | ViewControllerStateMachine/ViewController.swift:41 | tagging a state's view with its raw value twice is tagging it once |
| `StateSpec.RepeatedTransition` | ViewControllerStateMachine/ViewController.swift:20-36 | when the first removal left nothing tagged with the new state, switching to that state again rebuilds the same subviews |
| `StateSpec.TransitionIdempotent` | ViewControllerStateMachine/ViewController.swift:20-36 | switching to the state already shown leaves the subviews and the placeholder views as they were |
| `StateSpec.StepTidy` | ViewControllerStateMachine/ViewController.swift:20-36 | one transition keeps the invariant, the placeholder identities and the unrelated subviews |
| `StateSpec.RunTidy` | ViewControllerStateMachine/ViewController.swift:20-36 | after any sequence of button taps the invariant still holds |
| `StateSpec.RunKeepsForeign` | ViewControllerStateMachine/ViewController.swift:20-36 | after any sequence of taps the placeholders are the same three views and the unrelated subviews are unchanged, in order |
| `StateSpec.RunEndsInLastTap` | ViewControllerStateMachine/ViewController.swift:22-35 | after a non-empty sequence of taps the current state is the last one asked for |
| `StateProviders.StateProvider.constructor` | ViewControllerStateMachine/ViewController.swift:51-77 | the provider starts in `.none` with three distinct, untagged placeholder views that are not in the container, and the invariant holds |
| `StateProviders.StateProvider.ChangeStateTo` | ViewControllerStateMachine/ViewController.swift:20-36 | `currentState` becomes the requested state. The subviews become `Transition` of the old subviews. For `.loading`, `.error` and `.noContent` that is the survivors plus exactly that state's view, tagged with its raw value; for `.none` it is the survivors only. The invariant and the absence of foreign state tags are preserved |
| `StateProviders.StateProvider.SetUpAndAddView` | ViewControllerStateMachine/ViewController.swift:38-42 | the view is added on top, then tagged with the identifier; the pinning guard is met because the view was just added; views stay distinct |
| `StateProviders.StateProvider.RemoveContainerSubviews` | ViewControllerStateMachine/ViewController.swift:44-47 | removing each selected view in turn leaves exactly the subviews whose identifier is not the current state's raw value, in their original order |

## Left out

- Auto Layout: the constraints that `addConstraintsToSuperView` creates and activates (lines 122-128) are UIKit calls with no observable logic here. Only the superview guard is modelled.
- The background colours of the placeholder views (lines 59, 65, 71): rendering only.
- `viewDidLoad` and the stack view's axis, distribution and alignment (lines 89-94): UI setup only.
- The `@IBAction` handlers (lines 97-111): each is one `changeStateTo` call. Sequences of them are covered by `StateSpec.Run` and its lemmas, not by methods.
- The lazy creation of the provider in the view controller (lines 85-87).
- The `StateBehaviourProvider` protocol as a separate abstraction: it has one conforming type, so its extension methods are methods of `StateProvider`. The Swift struct's value semantics are modelled as a class; the model never copies a provider.
- The `[Void]` that `removeContainerSubviews` returns is discarded by its only caller and is not modelled.
- UIKit's `subviews` ordering beyond a sequence: z-order, arranged subviews of a stack view, and layout. Views are records, not objects. A view's identifier lives in the container's record while the view is shown, and in the provider's own copy of that record while it is not.
- `ContainerView.Container.AddConstraintsToSuperView`: does not model the `fatalError` branch as an outcome. It is a precondition, and the one caller discharges it.
