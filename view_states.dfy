/** The `ViewStates` enum: the four mutually exclusive states the screen can
    present, and their `String` raw values, which double as the accessibility
    identifiers of the views that present them. */
module ViewStates {

  import Wrappers

  datatype ViewState = Loading | Error | NoContent | None
  {
    /** Swift's synthesised raw value of a `String`-backed enum: the case name. */
    function RawValue(): string
    {
      match this
      case Loading => "loading"
      case Error => "error"
      case NoContent => "noContent"
      case None => "none"
    }
  }

  /** Swift's synthesised failable `init?(rawValue:)`: the state whose raw value
      is `raw`, if there is one. */
  function FromRawValue(raw: string): (r: Wrappers.Option<ViewState>)
    ensures r.Some? ==> r.value.RawValue() == raw
    ensures r.None? <==> forall s: ViewState :: s.RawValue() != raw
  {
    if raw == "loading" then Wrappers.Some(Loading)
    else if raw == "error" then Wrappers.Some(Error)
    else if raw == "noContent" then Wrappers.Some(NoContent)
    else if raw == "none" then Wrappers.Some(None)
    else Wrappers.None
  }

  /** The raw value of a state identifies that state: decoding it gives the state back. */
  lemma RawValueRoundTrip(s: ViewState)
    ensures FromRawValue(s.RawValue()) == Wrappers.Some(s)
  {
  }

  /** The four raw values are pairwise distinct, so a tag names at most one state. */
  lemma RawValueInjective(a: ViewState, b: ViewState)
    ensures a.RawValue() == b.RawValue() <==> a == b
  {
  }

  /** An identifier is a state tag when it is the raw value of one of the four states. */
  predicate IsStateTag(identifier: Wrappers.Option<string>)
  {
    identifier.Some? && FromRawValue(identifier.value).Some?
  }

  /** The state tags are exactly the four raw values. */
  lemma IsStateTagIff(identifier: Wrappers.Option<string>)
    ensures IsStateTag(identifier) <==> exists s: ViewState :: identifier == Wrappers.Some(s.RawValue())
  {
  }
}
