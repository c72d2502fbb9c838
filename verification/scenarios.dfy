/** Whole-system scenarios: the facade, the injector's handlers and the zone together,
    and the ordering of a concrete provider catalogue. */
module Scenarios {
  import opened ProviderTypes
  import opened ZoneSpec
  import opened VisualTree
  import opened ProviderOrder
  import opened PlayModeZoneFacade
  import opened PlayModeZoneInjector
  import opened PredefinedButton

  /** Providers discovered with orders 10, -1 and 10 are injected as -1, then the two
      10s in discovery order. */
  lemma OrderTieKeepsDiscoveryOrder(a: ProviderType, b: ProviderType, c: ProviderType)
    requires OrderOf(a) == 10 && OrderOf(b) == -1 && OrderOf(c) == 10
    ensures SortedProviders([a, b, c])
         == [ProviderDescriptor(b, -1), ProviderDescriptor(a, 10), ProviderDescriptor(c, 10)]
  {
    var da, db, dc := ProviderDescriptor(a, 10), ProviderDescriptor(b, -1), ProviderDescriptor(c, 10);
    var ds := Describe([a, b, c]);
    assert ds == [da, db, dc];
    var t := [db, da, dc];
    forall k ensures WithOrder(t, k) == WithOrder(ds, k) {
      assert t[1..] == [da, dc] && ds[1..] == [db, dc];
      assert [da, dc][1..] == [dc] && [db, dc][1..] == [dc] && [dc][1..] == [];
    }
    assert Sorted(t);
    StableSortCharacterized(ds, t);
  }

  /** The facade's three events each have exactly the injector's handler, as after
      `DelayRunInjector` on a fresh facade. */
  ghost predicate OnlyInjectorSubscribed(facade: PlayModeZone)
    reads facade
  {
    && facade.clientRequestedToAddFunction == [ExposeButtonHandler]
    && facade.clientRequestedToAddOrReplaceFunction == [ExposeRewriteButtonHandler]
    && facade.clientRequestedToRemoveFunction == [RemoveButtonHandler]
  }

  /** The injector's handler for the event a request is raised on. */
  function HandlerFor(r: Request): Subscriber {
    match r
    case AddFunctionRequest(_, _) => ExposeButtonHandler
    case AddOrReplaceFunctionRequest(_, _) => ExposeRewriteButtonHandler
    case RemoveFunctionRequest(_) => RemoveButtonHandler
  }

  /** The facade call that carries `r`. With only the injector subscribed it raises
      exactly one notification: `r`, unchanged, to the handler of its own event. */
  method Raise(facade: PlayModeZone, r: Request) returns (raised: seq<Notification>)
    requires OnlyInjectorSubscribed(facade)
    ensures raised == [Notification(HandlerFor(r), r)]
  {
    match r
    case AddFunctionRequest(name, action) =>
      raised := facade.AddFunction(name, action);
    case AddOrReplaceFunctionRequest(name, action) =>
      raised := facade.AddOrReplaceFunction(name, action);
    case RemoveFunctionRequest(name) =>
      raised := facade.RemoveFunction(name);
  }

  /** A client's `PlayModeZone.AddFunction` reaching the zone: add if absent. */
  method ClientAddFunction(facade: PlayModeZone, zone: VisualElement, name: string, action: Action)
    requires OnlyInjectorSubscribed(facade) && zone.Valid()
    modifies zone`children
    ensures zone.Valid()
    ensures zone.ChildNames() == AddIfAbsent(old(zone.ChildNames()), name)
  {
    var raised := Raise(facade, AddFunctionRequest(name, action));
    assert raised == [Notification(ExposeButtonHandler, AddFunctionRequest(name, action))];
    assert zone.children == old(zone.children);
    assert forall i :: 0 <= i < |zone.children| ==> zone.children[i].name == old(zone.children[i].name);
    assert zone.ChildNames() == old(zone.ChildNames());
    var _ := Deliver(zone, Notification(ExposeButtonHandler, AddFunctionRequest(name, action)));
  }

  /** The same name added twice through the facade: both calls reach the injector's
      handler, and the second changes nothing, so the zone ends as after one add. */
  method ClientAddFunctionTwice(facade: PlayModeZone, zone: VisualElement, name: string,
                                first: Action, second: Action)
    requires OnlyInjectorSubscribed(facade) && zone.Valid()
    modifies zone`children
    ensures zone.Valid()
    ensures zone.ChildNames() == AddIfAbsent(old(zone.ChildNames()), name)
    ensures |zone.ChildNames()| <= |old(zone.ChildNames())| + 1
  {
    ClientAddFunction(facade, zone, name, first);
    ClientAddFunction(facade, zone, name, second);
    AddIfAbsentIdempotent(old(zone.ChildNames()), name);
  }

  /** A client's `PlayModeZone.AddOrReplaceFunction` reaching the zone: remove then append. */
  method ClientAddOrReplaceFunction(facade: PlayModeZone, zone: VisualElement, name: string, action: Action)
    requires OnlyInjectorSubscribed(facade) && zone.Valid()
    modifies zone`children
    ensures zone.Valid()
    ensures zone.ChildNames() == AddOrReplace(old(zone.ChildNames()), name)
  {
    var raised := Raise(facade, AddOrReplaceFunctionRequest(name, action));
    assert raised == [Notification(ExposeRewriteButtonHandler, AddOrReplaceFunctionRequest(name, action))];
    assert zone.children == old(zone.children);
    assert forall i :: 0 <= i < |zone.children| ==> zone.children[i].name == old(zone.children[i].name);
    assert zone.ChildNames() == old(zone.ChildNames());
    var _ := Deliver(zone, Notification(ExposeRewriteButtonHandler, AddOrReplaceFunctionRequest(name, action)));
  }

  /** A client's `PlayModeZone.RemoveFunction` reaching the zone: remove the first match,
      or warn when there is none. */
  method ClientRemoveFunction(facade: PlayModeZone, zone: VisualElement, name: string) returns (warned: bool)
    requires OnlyInjectorSubscribed(facade) && zone.Valid()
    modifies zone`children
    ensures zone.Valid()
    ensures zone.ChildNames() == RemoveFirst(old(zone.ChildNames()), name)
    ensures warned <==> name !in old(zone.ChildNames())
  {
    var raised := Raise(facade, RemoveFunctionRequest(name));
    assert raised == [Notification(RemoveButtonHandler, RemoveFunctionRequest(name))];
    assert zone.children == old(zone.children);
    assert forall i :: 0 <= i < |zone.children| ==> zone.children[i].name == old(zone.children[i].name);
    assert zone.ChildNames() == old(zone.ChildNames());
    warned := Deliver(zone, Notification(RemoveButtonHandler, RemoveFunctionRequest(name)));
  }

  /** Adding-or-replacing the name that is already last, and only there, leaves the
      zone's names as they were. */
  method ClientReplaceLast(facade: PlayModeZone, zone: VisualElement, ghost prefix: seq<string>,
                           name: string, action: Action)
    requires OnlyInjectorSubscribed(facade) && zone.Valid()
    requires zone.ChildNames() == prefix + [name] && name !in prefix
    modifies zone`children
    ensures zone.Valid() && zone.ChildNames() == prefix + [name]
  {
    RemoveFirstAfterPrefix(prefix, name, []);
    assert prefix + [name] + [] == prefix + [name];
    ClientAddOrReplaceFunction(facade, zone, name, action);
  }

  /** The adding half of `PlayModeZoneExample3`'s session: "TestMe 0" is added once and
      "TestMe 1" is added-or-replaced three times, leaving one entry of each at the end. */
  method Example3Adds(facade: PlayModeZone, zone: VisualElement)
    requires OnlyInjectorSubscribed(facade) && zone.Valid()
    requires "TestMe 0" !in zone.ChildNames() && "TestMe 1" !in zone.ChildNames()
    modifies zone`children
    ensures zone.Valid()
    ensures zone.ChildNames() == old(zone.ChildNames()) + ["TestMe 0", "TestMe 1"]
  {
    ghost var start := zone.ChildNames();
    var t0, t1 := "TestMe 0", "TestMe 1";
    ClientAddFunction(facade, zone, t0, Action(0));
    assert t1 !in start + [t0];
    ClientAddOrReplaceFunction(facade, zone, t1, Action(1));
    assert zone.ChildNames() == start + [t0] + [t1];
    for round := 1 to 3
      invariant zone.Valid() && zone.ChildNames() == start + [t0] + [t1]
    {
      ClientReplaceLast(facade, zone, start + [t0], t1, Action(1));
    }
    assert start + [t0] + [t1] == start + [t0, t1];
  }

  /** Removing a name whose first entry follows a prefix without it takes out that
      entry, keeps the rest in order, and does not warn. */
  method ClientRemoveAfterPrefix(facade: PlayModeZone, zone: VisualElement, ghost prefix: seq<string>,
                                 name: string, ghost suffix: seq<string>) returns (warned: bool)
    requires OnlyInjectorSubscribed(facade) && zone.Valid()
    requires zone.ChildNames() == prefix + [name] + suffix && name !in prefix
    modifies zone`children
    ensures zone.Valid() && zone.ChildNames() == prefix + suffix
    ensures !warned
  {
    RemoveFirstAfterPrefix(prefix, name, suffix);
    warned := ClientRemoveFunction(facade, zone, name);
  }

  /** The removing half: "TestMe 0" and "TestMe 1" go without a warning, and removing
      the never-added "TestMe 2" warns and changes nothing. */
  method Example3Removes(facade: PlayModeZone, zone: VisualElement, ghost start: seq<string>)
    returns (warnings: seq<bool>)
    requires OnlyInjectorSubscribed(facade) && zone.Valid()
    requires zone.ChildNames() == start + ["TestMe 0", "TestMe 1"]
    requires "TestMe 0" !in start && "TestMe 1" !in start && "TestMe 2" !in start
    modifies zone`children
    ensures zone.ChildNames() == start
    ensures warnings == [false, false, true]
  {
    var t0, t1, t2 := "TestMe 0", "TestMe 1", "TestMe 2";
    assert start + [t0, t1] == start + [t0] + [t1];
    var w0 := ClientRemoveAfterPrefix(facade, zone, start, t0, [t1]);
    assert start + [t1] == start + [t1] + [];
    var w1 := ClientRemoveAfterPrefix(facade, zone, start, t1, []);
    assert start + [] == start;
    var w2 := ClientRemoveFunction(facade, zone, t2);
    warnings := [w0, w1, w2];
  }

  /** The session of `PlayModeZoneExample3` through the facade, with the injector loaded:
      add "TestMe 0", add-or-replace "TestMe 1" three times, then remove "TestMe 0",
      "TestMe 1" and the never-added "TestMe 2". The zone ends as it started; only the
      last removal warns, and it returns normally. */
  method Example3Session(zone: VisualElement) returns (warnings: seq<bool>)
    requires zone.Valid()
    requires "TestMe 0" !in zone.ChildNames() && "TestMe 1" !in zone.ChildNames()
    requires "TestMe 2" !in zone.ChildNames()
    modifies zone`children
    ensures zone.ChildNames() == old(zone.ChildNames())
    ensures warnings == [false, false, true]
  {
    var facade := new PlayModeZone();
    DelayRunInjector(facade);
    ghost var start := zone.ChildNames();
    Example3Adds(facade, zone);
    warnings := Example3Removes(facade, zone, start);
  }

  /** `PlayModeZoneExample1.ProvideElement`: the default button, renamed and labelled
      "haha button 2", with one pointer-down handler, one click handler and the tooltip
      "buya". Its element is the one the matching `ConfiguredDefaultButton` recipe names. */
  method Example1ProvideElement(onPointerDown: Action, onClick: Action)
    returns (button: PredefinedPlayZoneButton, element: VisualElement)
    ensures fresh(button) && fresh(element) && element == button.root
    ensures element.name == "haha button 2" && element.children == []
    ensures button.labelText == "haha button 2" && button.tooltip == "buya"
    ensures button.background == BaseColor
    ensures button.pointerDown == [onPointerDown] && button.pointerClicked == [onClick]
    ensures element.name
         == RecipeName(ConfiguredDefaultButton(Some("haha button 2"), Some("buya"), [onClick], [onPointerDown]))
  {
    button := new PredefinedPlayZoneButton();
    button.SetText("haha button 2");
    button.SubscribePointerDown([onPointerDown]);
    button.SubscribePointerClicked([onClick]);
    button.SetTooltip("buya");
    element := button.AsVisualElement();
  }
}
