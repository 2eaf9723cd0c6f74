/** `StateProvider`, the struct that adopts `StateBehaviourProvider`, together
    with the protocol extension it inherits: `changeStateTo(state:)` and its two
    private helpers `setUpAndAddView` and `removeContainerSubviews`. */
module StateProviders {

  import Wrappers
  import opened ViewStates
  import opened Subviews
  import opened StateSpec
  import opened ContainerView

  class StateProvider {
    var currentState: ViewState
    const containerToPresentAllViews: Container
    var loadingView: Subview
    var errorView: Subview
    var noContentView: Subview

    function Views(): Placeholders
      reads this
    {
      Placeholders(loadingView, errorView, noContentView)
    }

    ghost predicate Valid()
      reads this, containerToPresentAllViews
    {
      Consistent(containerToPresentAllViews.subviews, Views(), currentState)
    }

    /** `init(containerToPresentAllViews:)`: the state starts as `.none`, and the
        three placeholder views are new views, in no container and untagged. */
    constructor (containerToPresentAllViews: Container)
      requires containerToPresentAllViews.Valid()
      ensures Valid()
      ensures this.containerToPresentAllViews == containerToPresentAllViews
      ensures currentState == None
      ensures forall v :: v in containerToPresentAllViews.subviews ==> v.viewId !in Views().Ids()
      ensures loadingView.identifier == Wrappers.None
      ensures errorView.identifier == Wrappers.None
      ensures noContentView.identifier == Wrappers.None
    {
      var next := FreshId(containerToPresentAllViews.subviews);
      currentState := None;
      this.containerToPresentAllViews := containerToPresentAllViews;
      loadingView := Subview(next, Wrappers.None);
      errorView := Subview(next + 1, Wrappers.None);
      noContentView := Subview(next + 2, Wrappers.None);
      new;
      InitiallyConsistent(containerToPresentAllViews.subviews, Views());
    }

    /** `changeStateTo(state:)`: remove the views tagged with the state held
        before the call, present the new state's view (none for `.none`), and
        record the new state. */
    method ChangeStateTo(state: ViewState)
      requires Valid()
      modifies this, containerToPresentAllViews
      ensures Valid()
      ensures currentState == state
      ensures Views() == old(Views()).TaggedFor(state)
      ensures old(NoForeignStateTags(containerToPresentAllViews.subviews, Views()))
        ==> NoForeignStateTags(containerToPresentAllViews.subviews, Views())
      ensures containerToPresentAllViews.subviews
        == Transition(old(containerToPresentAllViews.subviews), old(Views()), old(currentState), state)
      ensures state != None ==>
        (containerToPresentAllViews.subviews
           == WithoutTag(old(containerToPresentAllViews.subviews), old(currentState).RawValue())
              + [Subview(old(Views()).For(state).viewId, Wrappers.Some(state.RawValue()))])
      ensures state == None ==>
        (containerToPresentAllViews.subviews
           == WithoutTag(old(containerToPresentAllViews.subviews), old(currentState).RawValue()))
    {
      ghost var before := containerToPresentAllViews.subviews;
      ghost var from := currentState;
      ghost var views := Views();
      RemoveContainerSubviews();
      match state {
        case Loading =>
          AddingNextView(before, views, from, state);
          loadingView := SetUpAndAddView(state.RawValue(), loadingView);
          currentState := Loading;
        case Error =>
          AddingNextView(before, views, from, state);
          errorView := SetUpAndAddView(state.RawValue(), errorView);
          currentState := Error;
        case NoContent =>
          AddingNextView(before, views, from, state);
          noContentView := SetUpAndAddView(state.RawValue(), noContentView);
          currentState := NoContent;
        case None =>
          currentState := None;
      }
      assert Views() == views.TaggedFor(state);
      assert containerToPresentAllViews.subviews == Transition(before, views, from, state);
      TransitionConsistent(before, views, from, state);
      if NoForeignStateTags(before, views) {
        ForeignUntouched(before, views, from, state);
      }
    }

    /** `setUpAndAddView(identifier:view:)`: add the view to the container, pin
        it to the container (which is now its superview), then tag it. */
    method SetUpAndAddView(identifier: string, view: Subview) returns (tagged: Subview)
      modifies containerToPresentAllViews
      ensures tagged == view.(identifier := Wrappers.Some(identifier))
      ensures containerToPresentAllViews.subviews
        == Detached(old(containerToPresentAllViews.subviews), view.viewId) + [tagged]
      ensures old(containerToPresentAllViews.Valid()) ==> containerToPresentAllViews.Valid()
    {
      ghost var rest := Detached(containerToPresentAllViews.subviews, view.viewId);
      containerToPresentAllViews.AddSubview(view);
      containerToPresentAllViews.AddConstraintsToSuperView(view.viewId);
      containerToPresentAllViews.SetIdentifier(view.viewId, Wrappers.Some(identifier));
      tagged := view.(identifier := Wrappers.Some(identifier));
      ghost var after := containerToPresentAllViews.subviews;
      forall i | 0 <= i < |rest| ensures after[i] == rest[i] {
        assert rest[i] in rest;
      }
      assert after == rest + [tagged];
    }

    /** `removeContainerSubviews()`: select the subviews whose identifier is the
        current state's raw value, then remove each from its superview. */
    method RemoveContainerSubviews()
      requires containerToPresentAllViews.Valid()
      modifies containerToPresentAllViews
      ensures containerToPresentAllViews.subviews
        == WithoutTag(old(containerToPresentAllViews.subviews), currentState.RawValue())
      ensures containerToPresentAllViews.Valid()
    {
      ghost var before := containerToPresentAllViews.subviews;
      var doomed := TaggedWith(containerToPresentAllViews.subviews, currentState.RawValue());
      FilterKeepsAll(before, NotIn({}));
      assert Ids(doomed[..0]) == {};
      for i := 0 to |doomed|
        invariant containerToPresentAllViews.subviews == WithoutIds(before, Ids(doomed[..i]))
      {
        DetachNext(before, doomed, i);
        containerToPresentAllViews.RemoveSubview(doomed[i].viewId);
      }
      assert doomed[..|doomed|] == doomed;
      RemovingTaggedIds(before, currentState.RawValue());
      FilterUnique(before, Lacks(currentState.RawValue()));
    }
  }
}
