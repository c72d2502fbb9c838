/** Plain declarations shared by the Play Mode Zone: callbacks, the provider attribute,
    the updatable-label carrier and the two provider capabilities a discovered type may
    implement. */
module ProviderTypes {

  datatype Option<+T> = None | Some(value: T)

  /** An opaque zero-argument callback (`System.Action`), known by identity only. */
  datatype Action = Action(id: nat)

  /** An opaque text producer (`Func<string>`), known by identity only. The text it
      returns on a given refresh tick is an input of that tick. */
  datatype TextGetter = TextGetter(id: nat)

  /** `[PlayModeZoneElementProvider(order)]`; the constructor's argument defaults to 0. */
  datatype PlayModeZoneElementProviderAttribute = PlayModeZoneElementProviderAttribute(order: int := 0)

  /** `UpdatableLabelCarrier`: a text producer and the refresh interval in milliseconds. */
  datatype UpdatableLabelCarrier = UpdatableLabelCarrier(textGetter: TextGetter, updateIntervalInMS: int)

  /** What an element provider's `ProvideElement(defaultButtonProvider)` returns:
      either the default button, configured through its public surface, or an element
      of the provider's own making, of which only the name matters to the zone. */
  datatype ElementRecipe =
    | ConfiguredDefaultButton(text: Option<string>, tooltip: Option<string>,
                              onClick: seq<Action>, onPointerDown: seq<Action>)
    | CustomElement(name: string)

  /** A provider instance, seen through the two interfaces it may implement:
      `IPlayModeZoneElementProvider` and `IPlayModeZoneUpdatableLabelProvider`. */
  datatype ProviderInstance = ProviderInstance(
    asElementProvider: Option<ElementRecipe>,
    asUpdatableLabelProvider: Option<UpdatableLabelCarrier>)

  /** The instance implements at least one of the two interfaces; otherwise the injector
      hands a null element to the zone. */
  predicate ImplementsAShape(p: ProviderInstance) {
    p.asElementProvider.Some? || p.asUpdatableLabelProvider.Some?
  }

  /** A discovered provider type: the instance `Activator.CreateInstance` gives for it and
      the `PlayModeZoneElementProvider` attribute found on it, if any. */
  datatype ProviderType = ProviderType(
    instance: ProviderInstance,
    attribute: Option<PlayModeZoneElementProviderAttribute>)
}
