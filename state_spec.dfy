/** What one `changeStateTo(state:)` does to the container's subviews, stated as
    functions of the subviews before the call, and the invariant the switcher
    keeps: the only placeholder view on screen is the current state's, tagged
    with that state's raw value. */
module StateSpec {

  import Wrappers
  import opened ViewStates
  import opened Subviews

  /** The provider's `loadingView`, `errorView` and `noContentView`: one instance
      each, created with the provider and reused on every transition. */
  datatype Placeholders = Placeholders(loading: Subview, error: Subview, noContent: Subview)
  {
    /** The view that presents `s`; `.none` has no view. */
    function For(s: ViewState): Subview
      requires s != None
    {
      match s
      case Loading => loading
      case Error => error
      case NoContent => noContent
    }

    function Ids(): set<ViewId>
    {
      {loading.viewId, error.viewId, noContent.viewId}
    }

    /** Three distinct views, each with no identifier yet or with its own state's raw value. */
    predicate WellFormed()
    {
      && loading.viewId != error.viewId
      && loading.viewId != noContent.viewId
      && error.viewId != noContent.viewId
      && loading.identifier in {Wrappers.None, Wrappers.Some(Loading.RawValue())}
      && error.identifier in {Wrappers.None, Wrappers.Some(Error.RawValue())}
      && noContent.identifier in {Wrappers.None, Wrappers.Some(NoContent.RawValue())}
    }

    /** The placeholders once `setUpAndAddView` has tagged the view of `s` with `s`'s raw value. */
    function TaggedFor(s: ViewState): (r: Placeholders)
      ensures r.Ids() == Ids()
      ensures s != None ==> r.For(s).viewId == For(s).viewId
      ensures s != None ==> r.For(s).identifier == Wrappers.Some(s.RawValue())
      ensures forall t :: t != None && t != s ==> r.For(t) == For(t)
      ensures WellFormed() ==> r.WellFormed()
    {
      match s
      case Loading => this.(loading := loading.(identifier := Wrappers.Some(s.RawValue())))
      case Error => this.(error := error.(identifier := Wrappers.Some(s.RawValue())))
      case NoContent => this.(noContent := noContent.(identifier := Wrappers.Some(s.RawValue())))
      case None => this
    }
  }

  /** The placeholder views that are on screen in state `s`. */
  function Presented(p: Placeholders, s: ViewState): seq<Subview>
  {
    if s == None then [] else [p.For(s)]
  }

  /** A subview carries a state tag: its identifier is one of the four raw values. */
  function StateTagged(): Subview -> bool
  {
    (v: Subview) => IsStateTag(v.identifier)
  }

  /** The subviews that are none of the provider's placeholder views. */
  function Foreign(vs: seq<Subview>, p: Placeholders): seq<Subview>
  {
    Filter(vs, NotIn(p.Ids()))
  }

  /** The container after `changeStateTo(to)` from state `from`: every subview
      tagged with `from`'s raw value is removed, the others stay in order, and the
      view of `to`, tagged with `to`'s raw value, goes on top unless `to` is `.none`. */
  function Transition(vs: seq<Subview>, p: Placeholders, from: ViewState, to: ViewState): (r: seq<Subview>)
    ensures |r| <= |vs| + 1
    ensures to != None ==> |r| > 0 && r[|r| - 1].identifier == Wrappers.Some(to.RawValue())
  {
    WithoutTag(vs, from.RawValue()) + Presented(p.TaggedFor(to), to)
  }

  /** A subview is on screen after a transition exactly when it was there before
      and not tagged with the previous state's raw value, or it is the new
      state's view, freshly tagged. */
  lemma TransitionMembers(vs: seq<Subview>, p: Placeholders, from: ViewState, to: ViewState)
    ensures forall v :: v in Transition(vs, p, from, to) <==>
      (v in vs && v.identifier != Wrappers.Some(from.RawValue())) || (to != None && v == p.TaggedFor(to).For(to))
  {
  }

  /** The switcher's invariant in state `current`: the container's views are
      distinct, the placeholders are well formed, and the placeholder views on
      screen are exactly the current state's view, tagged with its raw value. */
  ghost predicate Consistent(vs: seq<Subview>, p: Placeholders, current: ViewState)
  {
    && UniqueIds(vs)
    && p.WellFormed()
    && Filter(vs, In(p.Ids())) == Presented(p, current)
    && (current != None ==> p.For(current).identifier == Wrappers.Some(current.RawValue()))
  }

  /** No subview other than the placeholders carries a state tag. */
  ghost predicate NoForeignStateTags(vs: seq<Subview>, p: Placeholders)
  {
    forall v :: v in vs && v.viewId !in p.Ids() ==> !IsStateTag(v.identifier)
  }

  /** The switcher starts in `.none` on a container that holds none of its
      placeholder views, none of which carries an identifier yet. */
  lemma InitiallyConsistent(vs: seq<Subview>, p: Placeholders)
    requires UniqueIds(vs)
    requires p.WellFormed()
    requires forall v :: v in vs ==> v.viewId !in p.Ids()
    ensures Consistent(vs, p, None)
  {
    FilterDropsAll(vs, In(p.Ids()));
  }

  /** After removing the subviews tagged with the current state's raw value, no
      placeholder view is left in the container, so adding the next one adds it
      for the first time. */
  lemma NoPlaceholderAfterRemoval(vs: seq<Subview>, p: Placeholders, from: ViewState)
    requires Consistent(vs, p, from)
    ensures forall v :: v in WithoutTag(vs, from.RawValue()) ==> v.viewId !in p.Ids()
  {
  }

  /** Adding the next state's view after the removal appends it: it was not in
      the container any more, so nothing is moved. */
  lemma AddingNextView(vs: seq<Subview>, p: Placeholders, from: ViewState, to: ViewState)
    requires Consistent(vs, p, from)
    requires to != None
    ensures Detached(WithoutTag(vs, from.RawValue()), p.For(to).viewId)
              + [p.For(to).(identifier := Wrappers.Some(to.RawValue()))]
            == Transition(vs, p, from, to)
  {
    NoPlaceholderAfterRemoval(vs, p, from);
    FilterKeepsAll(WithoutTag(vs, from.RawValue()), IsNot(p.For(to).viewId));
  }

  /** Every transition keeps the invariant. */
  lemma TransitionConsistent(vs: seq<Subview>, p: Placeholders, from: ViewState, to: ViewState)
    requires Consistent(vs, p, from)
    ensures Consistent(Transition(vs, p, from, to), p.TaggedFor(to), to)
  {
    var kept := WithoutTag(vs, from.RawValue());
    var q := p.TaggedFor(to);
    var shown := Presented(q, to);
    NoPlaceholderAfterRemoval(vs, p, from);
    FilterUnique(vs, Lacks(from.RawValue()));
    if to != None {
      UniqueIdsSnoc(kept, q.For(to));
    } else {
      assert kept + shown == kept;
    }
    FilterAppend(kept, shown, In(p.Ids()));
    FilterDropsAll(kept, In(p.Ids()));
    FilterKeepsAll(shown, In(p.Ids()));
  }

  /** With no foreign state tags, the state-tagged subviews are exactly the
      presented view: at most one, the current state's own view, carrying the
      current state's raw value. */
  lemma ExclusivePresentation(vs: seq<Subview>, p: Placeholders, current: ViewState)
    requires Consistent(vs, p, current)
    requires NoForeignStateTags(vs, p)
    ensures Filter(vs, StateTagged()) == Presented(p, current)
    ensures forall v :: v in vs && IsStateTag(v.identifier) ==>
      current != None && v == p.For(current) && v.identifier == Wrappers.Some(current.RawValue())
  {
    forall v | v in vs
      ensures StateTagged()(v) == In(p.Ids())(v)
    {
      if v.viewId in p.Ids() {
        assert v in Filter(vs, In(p.Ids()));
        RawValueRoundTrip(current);
      }
    }
    FilterAgree(vs, StateTagged(), In(p.Ids()));
  }

  /** Nothing else changes: the subviews that are not placeholders lose exactly
      those tagged with the previous state's raw value and keep their order. */
  lemma {:induction false} TransitionKeepsForeign(vs: seq<Subview>, p: Placeholders, from: ViewState, to: ViewState)
    ensures Foreign(Transition(vs, p, from, to), p) == WithoutTag(Foreign(vs, p), from.RawValue())
  {
    var ids := p.Ids();
    var tag := from.RawValue();
    var shown := Presented(p.TaggedFor(to), to);
    FilterAppend(WithoutTag(vs, tag), shown, NotIn(ids));
    FilterDropsAll(shown, NotIn(ids));
    FilterFilter(vs, Lacks(tag), NotIn(ids));
    FilterFilter(vs, NotIn(ids), Lacks(tag));
    FilterAgree(vs, Both(Lacks(tag), NotIn(ids)), Both(NotIn(ids), Lacks(tag)));
  }

  /** With no foreign state tags, a transition leaves every foreign subview in place and in order. */
  lemma ForeignUntouched(vs: seq<Subview>, p: Placeholders, from: ViewState, to: ViewState)
    requires NoForeignStateTags(vs, p)
    ensures Foreign(Transition(vs, p, from, to), p) == Foreign(vs, p)
    ensures NoForeignStateTags(Transition(vs, p, from, to), p)
  {
    TransitionKeepsForeign(vs, p, from, to);
    forall v | v in Foreign(vs, p)
      ensures Lacks(from.RawValue())(v)
    {
      RawValueRoundTrip(from);
    }
    FilterKeepsAll(Foreign(vs, p), Lacks(from.RawValue()));
  }

  /** With no foreign state tags, the next removal finds nothing to remove among
      what survived this one. */
  lemma KeptSurvivesNextRemoval(vs: seq<Subview>, p: Placeholders, from: ViewState, to: ViewState)
    requires Consistent(vs, p, from)
    requires NoForeignStateTags(vs, p)
    ensures WithoutTag(WithoutTag(vs, from.RawValue()), to.RawValue()) == WithoutTag(vs, from.RawValue())
  {
    var kept := WithoutTag(vs, from.RawValue());
    NoPlaceholderAfterRemoval(vs, p, from);
    RawValueRoundTrip(to);
    assert !IsStateTag(Wrappers.Some(to.RawValue())) ==> false;
    FilterKeepsAll(kept, Lacks(to.RawValue()));
  }

  /** Tagging a state's view twice is tagging it once. */
  lemma TaggedForTwice(p: Placeholders, s: ViewState)
    ensures p.TaggedFor(s).TaggedFor(s) == p.TaggedFor(s)
  {
  }

  /** A transition to `to` after one to `to` removes only `to`'s view, so when
      the first removal left nothing tagged `to`, the second one re-presents the
      same screen. */
  lemma RepeatedTransition(vs: seq<Subview>, p: Placeholders, from: ViewState, to: ViewState)
    requires WithoutTag(WithoutTag(vs, from.RawValue()), to.RawValue()) == WithoutTag(vs, from.RawValue())
    ensures Transition(Transition(vs, p, from, to), p.TaggedFor(to), to, to) == Transition(vs, p, from, to)
  {
    var q := p.TaggedFor(to);
    var kept := WithoutTag(vs, from.RawValue());
    var shown := Presented(q, to);
    FilterDropsAll(shown, Lacks(to.RawValue()));
    FilterAppend(kept, shown, Lacks(to.RawValue()));
    TaggedForTwice(p, to);
  }

  /** Switching to the state the screen is already in changes nothing. */
  lemma TransitionIdempotent(vs: seq<Subview>, p: Placeholders, from: ViewState, to: ViewState)
    requires Consistent(vs, p, from)
    requires NoForeignStateTags(vs, p)
    ensures p.TaggedFor(to).TaggedFor(to) == p.TaggedFor(to)
    ensures Transition(Transition(vs, p, from, to), p.TaggedFor(to), to, to) == Transition(vs, p, from, to)
  {
    TaggedForTwice(p, to);
    KeptSurvivesNextRemoval(vs, p, from, to);
    RepeatedTransition(vs, p, from, to);
  }

  /** The switcher's state as a value: the container's subviews, the placeholder
      views and the current state. */
  datatype Screen = Screen(subviews: seq<Subview>, views: Placeholders, current: ViewState)

  /** The screen after one `changeStateTo(to)`. */
  function Step(s: Screen, to: ViewState): Screen
  {
    Screen(Transition(s.subviews, s.views, s.current, to), s.views.TaggedFor(to), to)
  }

  /** The screen after `changeStateTo` has been called with each state of `taps` in turn. */
  function Run(s: Screen, taps: seq<ViewState>): Screen
    decreases |taps|
  {
    if taps == [] then s else Run(Step(s, taps[0]), taps[1..])
  }

  /** The screen-level invariant: the switcher's invariant with no foreign state tags. */
  ghost predicate Tidy(s: Screen)
  {
    Consistent(s.subviews, s.views, s.current) && NoForeignStateTags(s.subviews, s.views)
  }

  /** One step keeps the screen tidy, its placeholders, and its foreign subviews. */
  lemma StepTidy(s: Screen, to: ViewState)
    requires Tidy(s)
    ensures Tidy(Step(s, to))
    ensures Step(s, to).views.Ids() == s.views.Ids()
    ensures Foreign(Step(s, to).subviews, s.views) == Foreign(s.subviews, s.views)
  {
    TransitionConsistent(s.subviews, s.views, s.current, to);
    ForeignUntouched(s.subviews, s.views, s.current, to);
  }

  /** Whatever buttons are tapped, in whatever order, the invariant holds. */
  lemma {:induction false} RunTidy(s: Screen, taps: seq<ViewState>)
    requires Tidy(s)
    ensures Tidy(Run(s, taps))
    decreases |taps|
  {
    if taps != [] {
      StepTidy(s, taps[0]);
      RunTidy(Step(s, taps[0]), taps[1..]);
    }
  }

  /** Whatever buttons are tapped, the placeholders stay the same three views and
      the foreign subviews are left as they were, in order. */
  lemma {:induction false} RunKeepsForeign(s: Screen, taps: seq<ViewState>)
    requires Tidy(s)
    ensures Run(s, taps).views.Ids() == s.views.Ids()
    ensures Foreign(Run(s, taps).subviews, s.views) == Foreign(s.subviews, s.views)
    decreases |taps|
  {
    if taps != [] {
      var next := Step(s, taps[0]);
      StepTidy(s, taps[0]);
      RunKeepsForeign(next, taps[1..]);
      assert Foreign(Run(next, taps[1..]).subviews, next.views) == Foreign(Run(next, taps[1..]).subviews, s.views);
    }
  }

  /** The state after a run of taps is the last one asked for. */
  lemma {:induction false} RunEndsInLastTap(s: Screen, taps: seq<ViewState>)
    requires taps != []
    ensures Run(s, taps).current == taps[|taps| - 1]
    decreases |taps|
  {
    if |taps| > 1 {
      RunEndsInLastTap(Step(s, taps[0]), taps[1..]);
    }
  }
}
