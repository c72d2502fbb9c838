/** `PlayModeZoneInjector`: puts the providers' elements into the Play Mode Zone, in
    order, and serves the facade's add / add-or-replace / remove requests on that zone.

    The zone is the container the reflection lookup finds; here it is passed in. Each
    request handler looks an element up by name (`Q`), then removes and/or appends;
    their effect on the zone's names is stated with the functions of `ZoneSpec`. */
module PlayModeZoneInjector {
  import opened ProviderTypes
  import opened ZoneSpec
  import opened VisualTree
  import opened PredefinedButton
  import opened ProviderOrder
  import opened PlayModeZoneFacade

  /** The three handlers the injector subscribes to the facade's events. */
  const ExposeButtonHandler := Subscriber(0)
  const ExposeRewriteButtonHandler := Subscriber(1)
  const RemoveButtonHandler := Subscriber(2)

  /** A scheduled refresh of an updatable label: the button it writes to and the carrier
      holding the text producer and the interval. */
  datatype RefreshTask = RefreshTask(button: PredefinedPlayZoneButton, carrier: UpdatableLabelCarrier)

  /** The editor-load hook: subscribe exactly one handler to each of the three events. */
  method DelayRunInjector(facade: PlayModeZone)
    modifies facade
    ensures facade.clientRequestedToAddFunction == old(facade.clientRequestedToAddFunction) + [ExposeButtonHandler]
    ensures facade.clientRequestedToAddOrReplaceFunction
         == old(facade.clientRequestedToAddOrReplaceFunction) + [ExposeRewriteButtonHandler]
    ensures facade.clientRequestedToRemoveFunction == old(facade.clientRequestedToRemoveFunction) + [RemoveButtonHandler]
  {
    facade.SubscribeToAddFunction(ExposeButtonHandler);
    facade.SubscribeToAddOrReplaceFunction(ExposeRewriteButtonHandler);
    facade.SubscribeToRemoveFunction(RemoveButtonHandler);
  }

  /** The name of the element an element provider returns. */
  function RecipeName(recipe: ElementRecipe): string {
    match recipe
    case ConfiguredDefaultButton(text, _, _, _) => if text.Some? then text.value else DefaultName
    case CustomElement(name) => name
  }

  /** The name the provider's element has when it is appended: the element-provider
      shape is tried first; an updatable label starts as a fresh default button. */
  function InjectedName(d: ProviderDescriptor): (name: string)
    ensures d.providerType.instance.asElementProvider.Some? ==>
      name == RecipeName(d.providerType.instance.asElementProvider.value)
    ensures d.providerType.instance.asElementProvider.None? ==> name == DefaultName
  {
    match d.providerType.instance.asElementProvider
    case Some(recipe) => RecipeName(recipe)
    case None => DefaultName
  }

  /** The names appended for the providers `ds`, one per provider, in order. */
  function InjectedNames(ds: seq<ProviderDescriptor>): seq<string> {
    seq(|ds|, i requires 0 <= i < |ds| => InjectedName(ds[i]))
  }

  /** The carriers of the providers in `ds` that are handled as updatable labels, in order. */
  function LabelCarriers(ds: seq<ProviderDescriptor>): seq<UpdatableLabelCarrier> {
    if ds == [] then []
    else
      var last := ds[|ds| - 1].providerType.instance;
      LabelCarriers(ds[..|ds| - 1]) +
        (if IsLabelOnly(ds[|ds| - 1]) then [last.asUpdatableLabelProvider.value] else [])
  }

  /** A provider handled as an updatable label: it implements only the label interface. */
  predicate IsLabelOnly(d: ProviderDescriptor) {
    d.providerType.instance.asElementProvider.None? && d.providerType.instance.asUpdatableLabelProvider.Some?
  }

  /** The positions in `ds` of the providers handled as updatable labels, in order: one
      per label carrier, each within `ds` (`LabelPositionsAreLabels` states what they hold). */
  function LabelPositions(ds: seq<ProviderDescriptor>): (r: seq<nat>)
    ensures |r| == |LabelCarriers(ds)|
    ensures forall j :: 0 <= j < |r| ==> r[j] < |ds|
  {
    if ds == [] then []
    else LabelPositions(ds[..|ds| - 1]) + (if IsLabelOnly(ds[|ds| - 1]) then [|ds| - 1] else [])
  }

  /** The j-th label position holds a label-only provider whose carrier is the j-th label
      carrier, and the positions increase strictly. */
  lemma {:induction false} LabelPositionsAreLabels(ds: seq<ProviderDescriptor>)
    ensures forall j :: 0 <= j < |LabelPositions(ds)| ==>
      && IsLabelOnly(ds[LabelPositions(ds)[j]])
      && LabelCarriers(ds)[j] == ds[LabelPositions(ds)[j]].providerType.instance.asUpdatableLabelProvider.value
    ensures forall j, k :: 0 <= j < k < |LabelPositions(ds)| ==> LabelPositions(ds)[j] < LabelPositions(ds)[k]
  {
    if ds != [] {
      var front := ds[..|ds| - 1];
      LabelPositionsAreLabels(front);
      assert forall j :: 0 <= j < |LabelPositions(front)| ==>
        ds[LabelPositions(front)[j]] == front[LabelPositions(front)[j]];
    }
  }

  /** An element provider's `ProvideElement(CreatePredefinedButton)`: a new element
      whose name is the recipe's. */
  method ProvideElement(recipe: ElementRecipe) returns (element: VisualElement)
    ensures fresh(element) && element.name == RecipeName(recipe)
  {
    match recipe
    case ConfiguredDefaultButton(text, tooltip, onClick, onPointerDown) =>
      var button := new PredefinedPlayZoneButton();
      if text.Some? {
        button.SetText(text.value);
      }
      if tooltip.Some? {
        button.SetTooltip(tooltip.value);
      }
      button.SubscribePointerClicked(onClick);
      button.SubscribePointerDown(onPointerDown);
      element := button.AsVisualElement();
    case CustomElement(name) =>
      element := new VisualElement(name);
  }

  /** `RunInjector`: one new element per provider, appended after what the zone already
      holds, in stable order of the providers' `Order`. Nothing is deduplicated, so a
      second run appends a second set. Each updatable label becomes a fresh default
      button with a refresh task. A provider implementing neither interface would hand
      a null element to the zone; callers must not have one. */
  method RunInjector(zone: VisualElement, providerTypes: seq<ProviderType>) returns (tasks: seq<RefreshTask>)
    requires zone.Valid()
    requires forall t :: t in providerTypes ==> ImplementsAShape(t.instance)
    modifies zone`children
    ensures zone.Valid()
    ensures |zone.children| == |old(zone.children)| + |providerTypes|
    ensures zone.children[..|old(zone.children)|] == old(zone.children)
    ensures forall j :: |old(zone.children)| <= j < |zone.children| ==> fresh(zone.children[j])
    ensures zone.ChildNames() == old(zone.ChildNames()) + InjectedNames(SortedProviders(providerTypes))
    ensures |tasks| == |LabelCarriers(SortedProviders(providerTypes))|
    ensures forall j :: 0 <= j < |tasks| ==>
      && tasks[j].carrier == LabelCarriers(SortedProviders(providerTypes))[j]
      && fresh(tasks[j].button)
      && tasks[j].button.root
         == zone.children[|old(zone.children)| + LabelPositions(SortedProviders(providerTypes))[j]]
      && tasks[j].button.labelText == ""
    ensures forall j, k :: 0 <= j < k < |tasks| ==> tasks[j].button.root != tasks[k].button.root
  {
    var sorted := SortedProviders(providerTypes);
    tasks := InjectAll(zone, sorted);
    TasksMatchDistinct(tasks, sorted, zone.children, |old(zone.children)|);
  }

  /** The `foreach` of `RunInjector` over providers already in order: one new element
      per provider appended after the unchanged existing children, and one refresh task
      per provider handled as an updatable label. */
  method InjectAll(zone: VisualElement, sorted: seq<ProviderDescriptor>) returns (tasks: seq<RefreshTask>)
    requires zone.Valid()
    requires forall d :: d in sorted ==> ImplementsAShape(d.providerType.instance)
    modifies zone`children
    ensures zone.Valid()
    ensures |zone.children| == |old(zone.children)| + |sorted|
    ensures zone.children[..|old(zone.children)|] == old(zone.children)
    ensures forall j :: |old(zone.children)| <= j < |zone.children| ==> fresh(zone.children[j])
    ensures zone.ChildNames() == old(zone.ChildNames()) + InjectedNames(sorted)
    ensures TasksMatch(tasks, sorted, zone.children, |old(zone.children)|)
    ensures forall j :: 0 <= j < |tasks| ==> fresh(tasks[j].button)
  {
    ghost var before := |zone.children|;
    tasks := [];
    for i := 0 to |sorted|
      invariant zone.Valid()
      invariant |zone.children| == before + i
      invariant zone.children[..before] == old(zone.children)
      invariant forall j :: before <= j < |zone.children| ==> fresh(zone.children[j])
      invariant zone.ChildNames() == old(zone.ChildNames()) + InjectedNames(sorted[..i])
      invariant TasksMatch(tasks, sorted[..i], zone.children, before)
      invariant forall j :: 0 <= j < |tasks| ==> fresh(tasks[j].button)
    {
      tasks := InjectNext(zone, sorted, i, old(zone.children), old(zone.ChildNames()), tasks);
    }
    assert sorted[..|sorted|] == sorted;
  }

  /** One turn of `InjectAll`'s loop: inject `sorted[i]` after the elements of the
      providers before it and add its refresh task, if any, to theirs. */
  method InjectNext(zone: VisualElement, sorted: seq<ProviderDescriptor>, i: nat,
                    ghost existing: seq<VisualElement>, ghost existingNames: seq<string>,
                    tasks: seq<RefreshTask>) returns (next: seq<RefreshTask>)
    requires i < |sorted| && zone.Valid() && ImplementsAShape(sorted[i].providerType.instance)
    requires |zone.children| == |existing| + i && zone.children[..|existing|] == existing
    requires zone.ChildNames() == existingNames + InjectedNames(sorted[..i])
    requires TasksMatch(tasks, sorted[..i], zone.children, |existing|)
    modifies zone`children
    ensures zone.Valid()
    ensures |zone.children| == |existing| + i + 1 && zone.children[..|existing|] == existing
    ensures zone.children == old(zone.children) + [zone.children[|old(zone.children)|]]
    ensures fresh(zone.children[|old(zone.children)|])
    ensures zone.ChildNames() == existingNames + InjectedNames(sorted[..i + 1])
    ensures TasksMatch(next, sorted[..i + 1], zone.children, |existing|)
    ensures next == tasks || (|next| == |tasks| + 1 && next == tasks + [next[|tasks|]] && fresh(next[|tasks|].button))
  {
    assert sorted[..i + 1][..i] == sorted[..i];
    assert InjectedNames(sorted[..i + 1]) == InjectedNames(sorted[..i]) + [InjectedName(sorted[i])];
    ghost var children := zone.children;
    var task := InjectOne(zone, sorted[i]);
    assert zone.children[..|existing|] == children[..|existing|];
    assert zone.children == children + [zone.children[|children|]];
    assert sorted[..i + 1] == sorted[..i] + [sorted[i]];
    TasksMatchAppend(tasks, sorted[..i], sorted[i], children, zone.children, |existing|, task);
    next := tasks + if task.Some? then [task.value] else [];
  }

  /** The refresh tasks correspond one to one, in order, to the label-only providers of
      `ds`, whose elements were appended to `children` from position `base` on: task j
      carries the j-th label carrier and writes to the button appended for that provider,
      which still shows an empty label. */
  ghost predicate TasksMatch(tasks: seq<RefreshTask>, ds: seq<ProviderDescriptor>,
                             children: seq<VisualElement>, base: nat)
    reads set j | 0 <= j < |tasks| :: tasks[j].button
  {
    && |tasks| == |LabelCarriers(ds)|
    && forall j :: 0 <= j < |tasks| ==>
      && tasks[j].carrier == LabelCarriers(ds)[j]
      && base + LabelPositions(ds)[j] < |children|
      && tasks[j].button.root == children[base + LabelPositions(ds)[j]]
      && tasks[j].button.labelText == ""
  }

  /** Appending to the children keeps every task's button at its position. */
  lemma TasksMatchExtend(tasks: seq<RefreshTask>, ds: seq<ProviderDescriptor>,
                         children: seq<VisualElement>, longer: seq<VisualElement>, base: nat)
    requires TasksMatch(tasks, ds, children, base)
    requires |children| <= |longer| && longer[..|children|] == children
    ensures TasksMatch(tasks, ds, longer, base)
  {
    forall j | 0 <= j < |tasks|
      ensures tasks[j].button.root == longer[base + LabelPositions(ds)[j]]
    {
      assert longer[base + LabelPositions(ds)[j]] == children[base + LabelPositions(ds)[j]];
    }
  }

  /** Injecting one more provider `d`, whose element is appended to `children`, extends
      the match by its task exactly when `d` is a label-only provider. */
  lemma TasksMatchAppend(tasks: seq<RefreshTask>, ds: seq<ProviderDescriptor>, d: ProviderDescriptor,
                         children: seq<VisualElement>, longer: seq<VisualElement>, base: nat,
                         task: Option<RefreshTask>)
    requires TasksMatch(tasks, ds, children, base)
    requires |children| == base + |ds| && |longer| == |children| + 1 && longer[..|children|] == children
    requires task.Some? <==> IsLabelOnly(d)
    requires task.Some? ==>
      && task.value.carrier == d.providerType.instance.asUpdatableLabelProvider.value
      && task.value.button.root == longer[|children|]
      && task.value.button.labelText == ""
    ensures TasksMatch(tasks + (if task.Some? then [task.value] else []), ds + [d], longer, base)
  {
    TasksMatchExtend(tasks, ds, children, longer, base);
    var more := ds + [d];
    assert more[..|more| - 1] == ds;
  }

  /** Tasks bound to distinct positions of distinct children write to distinct buttons. */
  lemma TasksMatchDistinct(tasks: seq<RefreshTask>, ds: seq<ProviderDescriptor>,
                           children: seq<VisualElement>, base: nat)
    requires TasksMatch(tasks, ds, children, base) && Distinct(children)
    ensures forall j, k :: 0 <= j < k < |tasks| ==> tasks[j].button.root != tasks[k].button.root
  {
    LabelPositionsAreLabels(ds);
    forall j, k | 0 <= j < k < |tasks|
      ensures tasks[j].button.root != tasks[k].button.root
    {
      assert LabelPositions(ds)[j] < LabelPositions(ds)[k];
    }
  }

  /** One turn of `RunInjector`'s loop: create the provider's element, schedule the label
      refresh if the provider is an updatable label, and append the element to the zone. */
  method InjectOne(zone: VisualElement, d: ProviderDescriptor) returns (task: Option<RefreshTask>)
    requires zone.Valid() && ImplementsAShape(d.providerType.instance)
    modifies zone`children
    ensures zone.Valid()
    ensures |zone.children| == |old(zone.children)| + 1
    ensures zone.children[..|old(zone.children)|] == old(zone.children)
    ensures fresh(zone.children[|old(zone.children)|])
    ensures zone.ChildNames() == old(zone.ChildNames()) + [InjectedName(d)]
    ensures var p := d.providerType.instance;
      task.Some? <==> p.asElementProvider.None? && p.asUpdatableLabelProvider.Some?
    ensures task.Some? ==>
      && task.value.carrier == d.providerType.instance.asUpdatableLabelProvider.value
      && fresh(task.value.button)
      && task.value.button.root == zone.children[|old(zone.children)|]
      && task.value.button.labelText == ""
  {
    var provider := d.providerType.instance;
    var element: VisualElement;
    if provider.asElementProvider.Some? {
      element := ProvideElement(provider.asElementProvider.value);
      task := None;
    } else {
      var button := new PredefinedPlayZoneButton();
      element := button.AsVisualElement();
      task := Some(RefreshTask(button, provider.asUpdatableLabelProvider.value));
    }
    zone.Add(element);
  }

  /** One tick of a label refresh: `SetText` with the producer's result, so the label
      shows it and the element is renamed to it. If the button is in the zone, exactly
      its entry among the zone's names changes. */
  method RefreshTick(task: RefreshTask, producedText: string, ghost zone: VisualElement)
    requires zone.Valid()
    modifies task.button`labelText, task.button.root`name
    ensures task.button.labelText == producedText && task.button.root.name == producedText
    ensures task.button.root in zone.children ==>
      zone.ChildNames() == old(zone.ChildNames())[FirstIndex(zone.children, task.button.root) := producedText]
    ensures task.button.root !in zone.children ==> zone.ChildNames() == old(zone.ChildNames())
  {
    task.button.SetText(producedText);
    if task.button.root in zone.children {
      var k := FirstIndex(zone.children, task.button.root);
      forall j | 0 <= j < |zone.children| && j != k ensures zone.children[j] != task.button.root {
        FirstIndexOfDistinct(zone.children, j);
      }
      assert zone.ChildNames() == old(zone.ChildNames())[k := producedText];
    } else {
      assert zone.ChildNames() == old(zone.ChildNames());
    }
  }

  /** The button both add handlers build: named and labelled `buttonName`, with `action`
      as its only click handler. */
  method NewFunctionButton(buttonName: string, action: Action) returns (created: PredefinedPlayZoneButton)
    ensures fresh(created) && fresh(created.root)
    ensures created.labelText == buttonName && created.root.name == buttonName
    ensures created.pointerClicked == [action] && created.pointerDown == []
    ensures created.tooltip == "" && created.background == BaseColor
  {
    created := new PredefinedPlayZoneButton();
    created.SetText(buttonName);
    created.SubscribePointerClicked([action]);
  }

  /** The lookup-then-remove step both the remove and the add-or-replace handlers do:
      `zone.Q(buttonName)`, and `zone.Remove` of what it found. */
  method RemoveFirstNamed(zone: VisualElement, buttonName: string) returns (removed: bool)
    requires zone.Valid()
    modifies zone`children
    ensures zone.Valid()
    ensures removed <==> buttonName in old(zone.ChildNames())
    ensures !removed ==> zone.children == old(zone.children)
    ensures removed ==> zone.children == RemoveAt(old(zone.children), FirstIndex(old(zone.ChildNames()), buttonName))
    ensures zone.ChildNames() == RemoveFirst(old(zone.ChildNames()), buttonName)
  {
    var button := zone.Q(buttonName);
    if button == null {
      return false;
    }
    FirstIndexOfDistinct(zone.children, FirstIndex(zone.ChildNames(), buttonName));
    zone.Remove(button);
    removed := true;
  }

  /** `OnRemoveButtonRequested`: remove the first element with that name; when there is
      none, leave the zone as it is and warn. */
  method OnRemoveButtonRequested(zone: VisualElement, buttonName: string) returns (warned: bool)
    requires zone.Valid()
    modifies zone`children
    ensures zone.Valid()
    ensures warned <==> buttonName !in old(zone.ChildNames())
    ensures warned ==> zone.children == old(zone.children)
    ensures !warned ==> zone.children == RemoveAt(old(zone.children), FirstIndex(old(zone.ChildNames()), buttonName))
    ensures zone.ChildNames() == RemoveFirst(old(zone.ChildNames()), buttonName)
  {
    var removed := RemoveFirstNamed(zone, buttonName);
    warned := !removed;
  }

  /** `OnExposeRewriteButtonRequested`: remove the first element with that name, if any,
      then append a new button named and labelled `buttonName` whose click runs `action`. */
  method OnExposeRewriteButtonRequested(zone: VisualElement, buttonName: string, action: Action)
    returns (created: PredefinedPlayZoneButton)
    requires zone.Valid()
    modifies zone`children
    ensures zone.Valid()
    ensures fresh(created) && fresh(created.root)
    ensures created.labelText == buttonName && created.root.name == buttonName
    ensures created.pointerClicked == [action] && created.pointerDown == []
    ensures created.tooltip == "" && created.background == BaseColor
    ensures buttonName in old(zone.ChildNames()) ==>
      zone.children == RemoveAt(old(zone.children), FirstIndex(old(zone.ChildNames()), buttonName)) + [created.root]
    ensures buttonName !in old(zone.ChildNames()) ==> zone.children == old(zone.children) + [created.root]
    ensures zone.ChildNames() == AddOrReplace(old(zone.ChildNames()), buttonName)
  {
    ghost var oldNames := zone.ChildNames();
    ghost var oldChildren := zone.children;
    var _ := RemoveFirstNamed(zone, buttonName);
    ghost var midNames := zone.ChildNames();
    ghost var midChildren := zone.children;
    assert midNames == RemoveFirst(oldNames, buttonName);
    created := NewFunctionButton(buttonName, action);
    assert zone.ChildNames() == midNames;
    zone.Add(created.AsVisualElement());
    assert zone.ChildNames() == midNames + [buttonName];
    assert zone.children == midChildren + [created.root];
  }

  /** `OnExposeButtonRequested`: when an element with that name exists, do nothing;
      otherwise append a new button named and labelled `buttonName` whose click runs
      `action`. */
  method OnExposeButtonRequested(zone: VisualElement, buttonName: string, action: Action)
    returns (created: PredefinedPlayZoneButton?)
    requires zone.Valid()
    modifies zone`children
    ensures zone.Valid()
    ensures buttonName in old(zone.ChildNames()) ==> created == null && zone.children == old(zone.children)
    ensures buttonName !in old(zone.ChildNames()) ==>
      && created != null && fresh(created) && fresh(created.root)
      && created.labelText == buttonName && created.root.name == buttonName
      && created.pointerClicked == [action] && created.pointerDown == []
      && zone.children == old(zone.children) + [created.root]
    ensures zone.ChildNames() == AddIfAbsent(old(zone.ChildNames()), buttonName)
  {
    var button := zone.Q(buttonName);
    if button != null {
      return null;
    }
    created := NewFunctionButton(buttonName, action);
    zone.Add(created.AsVisualElement());
  }

  /** The zone's names after the injector's handler for `n.subscriber` has served
      `n.request`; a notification for any other subscriber leaves the zone alone. */
  function ZoneAfter(names: seq<string>, n: Notification): seq<string> {
    match n.request
    case AddFunctionRequest(name, _) =>
      if n.subscriber == ExposeButtonHandler then AddIfAbsent(names, name) else names
    case AddOrReplaceFunctionRequest(name, _) =>
      if n.subscriber == ExposeRewriteButtonHandler then AddOrReplace(names, name) else names
    case RemoveFunctionRequest(name) =>
      if n.subscriber == RemoveButtonHandler then RemoveFirst(names, name) else names
  }

  /** Invoking one subscriber with one request, where the subscriber may be one of the
      injector's handlers. Only the remove handler can warn, and only on a missing name. */
  method Deliver(zone: VisualElement, n: Notification) returns (warned: bool)
    requires zone.Valid()
    modifies zone`children
    ensures zone.Valid()
    ensures zone.ChildNames() == ZoneAfter(old(zone.ChildNames()), n)
    ensures warned <==> n.subscriber == RemoveButtonHandler && n.request.RemoveFunctionRequest?
                        && n.request.functionName !in old(zone.ChildNames())
  {
    warned := false;
    match n.request
    case AddFunctionRequest(name, action) =>
      if n.subscriber == ExposeButtonHandler {
        var _ := OnExposeButtonRequested(zone, name, action);
      }
    case AddOrReplaceFunctionRequest(name, action) =>
      if n.subscriber == ExposeRewriteButtonHandler {
        var _ := OnExposeRewriteButtonRequested(zone, name, action);
      }
    case RemoveFunctionRequest(name) =>
      if n.subscriber == RemoveButtonHandler {
        warned := OnRemoveButtonRequested(zone, name);
      }
  }
}
