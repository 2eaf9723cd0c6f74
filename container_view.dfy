/** The container view (`containerToPresentAllViews`) as far as the state
    switcher uses it: its ordered `subviews`, `addSubview`, a child's
    `removeFromSuperview`, setting a child's `accessibilityIdentifier`, and the
    superview guard of `addConstraintsToSuperView`. */
module ContainerView {

  import Wrappers
  import opened Subviews

  class Container {
    var subviews: seq<Subview>

    /** UIKit keeps a view in at most one place in its superview's `subviews`. */
    ghost predicate Valid()
      reads this
    {
      UniqueIds(subviews)
    }

    predicate HasSubview(id: ViewId)
      reads this
    {
      id in Ids(subviews)
    }

    /** A fresh view has no children. */
    constructor ()
      ensures Valid() && subviews == []
    {
      subviews := [];
    }

    /** `addSubview(view)`: the view goes on top; a view already present is moved
        there rather than added twice. */
    method AddSubview(view: Subview)
      modifies this
      ensures subviews == Detached(old(subviews), view.viewId) + [view]
      ensures HasSubview(view.viewId)
      ensures old(Valid()) ==> Valid()
    {
      var before := subviews;
      subviews := Detached(subviews, view.viewId) + [view];
      assert view in subviews;
      if UniqueIds(before) {
        FilterUnique(before, IsNot(view.viewId));
        UniqueIdsSnoc(Detached(before, view.viewId), view);
      }
    }

    /** `view.removeFromSuperview()` for a child of this container. */
    method RemoveSubview(id: ViewId)
      modifies this
      ensures subviews == Detached(old(subviews), id)
      ensures !HasSubview(id)
      ensures old(Valid()) ==> Valid()
    {
      var before := subviews;
      subviews := Detached(subviews, id);
      if UniqueIds(before) {
        FilterUnique(before, IsNot(id));
      }
    }

    /** `view.accessibilityIdentifier = identifier` for a child of this container. */
    method SetIdentifier(id: ViewId, identifier: Wrappers.Option<string>)
      modifies this
      ensures subviews == Retagged(old(subviews), id, identifier)
      ensures old(Valid()) ==> Valid()
    {
      subviews := Retagged(subviews, id, identifier);
    }

    /** `view.addConstraintsToSuperView()`: pins the view's edges to this, its
        superview. The source stops with a fatal error when the view has no
        superview; here that guard is a precondition every caller discharges. */
    method AddConstraintsToSuperView(id: ViewId)
      requires HasSubview(id)
      ensures subviews == old(subviews)
    {
    }
  }
}
