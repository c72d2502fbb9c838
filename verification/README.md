# ExposeIt Play Mode Zone, modelled in Dafny

ExposeIt is a Unity Editor plug-in. It adds buttons and labels to the editor toolbar's
Play Mode Zone, the container that holds Play, Pause and Step. This project models the
parts of it that carry logic:

- **The injector** (`PlayModeZoneInjector`), in `injector.dfy`, with its ordering step in
  `provider_order.dfy` and the name table's value-level specification in `zone_spec.dfy`.
  At editor load it subscribes one handler to each of the facade's three events. It then
  appends one element per discovered provider, in stable order of the providers' `Order`.
  Its handlers then serve three requests:
  - add a named button if no element has that name;
  - remove the first element with that name, then append a new one;
  - remove the first element with that name, or warn when there is none.
- **The facade** (`PlayModeZone`), in `play_mode_zone.dfy`. It is a class holding three
  subscriber lists. Its three methods return the notifications they raise, one per
  subscriber in order. It keeps no table and does not deduplicate.
- **The default button** (`PredefinedPlayZoneButton`), in `predefined_button.dfy`. It is a
  state class with these parts:
  - `SetText` sets both the label text and the element name;
  - `SetTooltip`;
  - the hover toggle;
  - pointer-down dispatch, which fires only for the primary mouse button;
  - click dispatch.
- **The Assets-folder-size label** (`PlayModeZoneExample5`), in `format_bytes.dfy`. It has
  the carrier, the text, and the exact B/KB/MB/GB band choice made by `FormatBytes`.

The zone is a UI Toolkit `VisualElement` (`visual_tree.dfy`): a name and an ordered list of
children, with `Q`, `Add` and `Remove`. The handlers are methods that take that object as the zone. They are
proved against the functions `AddIfAbsent`, `AddOrReplace` and `RemoveFirst` over the
sequence of child names. `scenarios.dfy` connects the facade, the injector and the zone.
It replays the session of `PlayModeZoneExample3` and shows that the zone ends as it
started and that only the last removal warns.

The plain declarations are datatypes in `provider_types.dfy`:
- the provider attribute, whose `Order` defaults to 0;
- the updatable-label carrier, a text getter and an interval in milliseconds;
- the two provider interfaces.

Callbacks (`Action`, `Func<string>`) are opaque identities.

### Where deduplication happens

A caller might expect `AddFunction` to do nothing at the facade for a name that is
already shown, since function names are meant to be unique
(`Examples/Runtime/PlayModeZoneExample3.cs:20`). In the code the facade keeps no table:
it forwards every call to its subscribers (`Runtime/PlayModeZone.cs:30-33`). The
only-if-absent rule is in the injector's handler (`Editor/PlayModeZoneInjector.cs:132-135`).
`PlayModeZoneFacade.AddFunctionTwice` shows that two calls raise two notifications.
`Scenarios.ClientAddFunctionTwice` shows that the zone still gains at most one element.

## Model

| member | source | states |
|---|---|---|
| ZoneSpec.FirstIndex | ExposeIt/Assets/Plugins/ExposeIt/Editor/PlayModeZoneInjector.cs:97 | The lookup `zone.Q(name)` on a flat sequence: -1 exactly when the name is absent; otherwise an index holding the name with no earlier occurrence |
| ZoneSpec.FirstIndexIsFirst | ExposeIt/Assets/Plugins/ExposeIt/Editor/PlayModeZoneInjector.cs:97 | An occurrence with none before it is the one the lookup finds |
| ZoneSpec.FirstIndexOfDistinct | ExposeIt/Assets/Plugins/ExposeIt/Editor/PlayModeZoneInjector.cs:97 | In a sequence without repetitions, the lookup of an element finds its own position |
| ZoneSpec.RemoveAt | ExposeIt/Assets/Plugins/ExposeIt/Editor/PlayModeZoneInjector.cs:107 | Removing one child: one shorter; elements before it stay put and later ones shift down by one |
| ZoneSpec.RemoveAtKeepsDistinct | ExposeIt/Assets/Plugins/ExposeIt/Editor/PlayModeZoneInjector.cs:107 | Removal keeps children distinct, and what remains is exactly every other element |
| ZoneSpec.RemoveFirst | ExposeIt/Assets/Plugins/ExposeIt/Editor/PlayModeZoneInjector.cs:94-107 | Remove handler on names: absent name leaves the names unchanged; otherwise one shorter, with exactly one occurrence of the name taken out |
| ZoneSpec.AddIfAbsent | ExposeIt/Assets/Plugins/ExposeIt/Editor/PlayModeZoneInjector.cs:127-142 | Add handler on names: the name is present afterwards; unchanged if it was present, else the old names followed by the name |
| ZoneSpec.AddOrReplace | ExposeIt/Assets/Plugins/ExposeIt/Editor/PlayModeZoneInjector.cs:110-125 | Replace handler on names: same length if the name existed, else one longer; the name is last; the multiset of names is kept, or gains the name |
| ZoneSpec.HandlersKeepNamesDistinct | ExposeIt/Assets/Plugins/ExposeIt/Editor/PlayModeZoneInjector.cs:94-142 | If the zone's names are distinct, all three handlers keep them distinct, and after a remove the name is gone |
| ZoneSpec.RemoveUndoesAdd | ExposeIt/Assets/Plugins/ExposeIt/Editor/PlayModeZoneInjector.cs:94-142 | Removing a name that was just added because it was absent restores the zone's names |
| ZoneSpec.RemoveFirstAfterPrefix | ExposeIt/Assets/Plugins/ExposeIt/Editor/PlayModeZoneInjector.cs:94-107 | When the prefix lacks the name, removal takes out the occurrence right after the prefix and keeps everything else in order |
| ZoneSpec.ReplaceAfterPrefix | ExposeIt/Assets/Plugins/ExposeIt/Editor/PlayModeZoneInjector.cs:110-124 | When the prefix lacks the name, add-or-replace takes out the entry right after the prefix, keeps the others in order, and puts the name at the end |
| ZoneSpec.AddIfAbsentIdempotent | ExposeIt/Assets/Plugins/ExposeIt/Editor/PlayModeZoneInjector.cs:127-142 | A second add of the same name changes nothing |
| ZoneSpec.UniqueNameGoneAfterRemove | ExposeIt/Assets/Plugins/ExposeIt/Editor/PlayModeZoneInjector.cs:94-107 | A name that occurs at most once is absent after one removal |
| ZoneSpec.ReplaceIsIdempotentOnUniqueName | ExposeIt/Assets/Plugins/ExposeIt/Editor/PlayModeZoneInjector.cs:110-125 | When the name occurs at most once, a second replace of it changes nothing |
| ZoneSpec.ReplaceNeedsUniqueName | ExposeIt/Assets/Plugins/ExposeIt/Editor/PlayModeZoneInjector.cs:110-125 | The at-most-once condition is needed: for names `[n] + p + [n] + q` with `n` not in `p` or `q` and `q` not empty (such as `["x", "b", "x", "c"]`), the first replace gives `p + [n] + q + [n]`, the second gives `p + q + [n, n]`, and the two differ |
| VisualTree.VisualElement.constructor | ExposeIt/Assets/Plugins/ExposeIt/Editor/PredefinedPlayZoneButton.cs:27-36 | A new element has the given name and no children |
| VisualTree.VisualElement.Q | ExposeIt/Assets/Plugins/ExposeIt/Editor/PlayModeZoneInjector.cs:97 | Returns null exactly when no child has the name; otherwise the child at the first matching position, which has that name |
| VisualTree.VisualElement.Add | ExposeIt/Assets/Plugins/ExposeIt/Editor/PlayModeZoneInjector.cs:88 | Appends the child at the end; children stay distinct; the names gain the child's name at the end |
| VisualTree.VisualElement.Remove | ExposeIt/Assets/Plugins/ExposeIt/Editor/PlayModeZoneInjector.cs:107 | Takes that child out of its position; the others keep their order, and so do their names |
| ProviderOrder.OrderOf | ExposeIt/Assets/Plugins/ExposeIt/Editor/PlayModeZoneInjector.cs:58-63 | A type without the attribute gets the order the attribute's default argument gives (0); otherwise the attribute's order |
| ProviderOrder.Describe | ExposeIt/Assets/Plugins/ExposeIt/Editor/PlayModeZoneInjector.cs:55-65 | One descriptor per discovered type, in discovery order, each with that type's order |
| ProviderOrder.WithOrder | ExposeIt/Assets/Plugins/ExposeIt/Editor/PlayModeZoneInjector.cs:66 | The descriptors of one order value, drawn from the input |
| ProviderOrder.Insert | ExposeIt/Assets/Plugins/ExposeIt/Editor/PlayModeZoneInjector.cs:66 | Insertion step of the sort: one longer, and a permutation of the input plus the new descriptor |
| ProviderOrder.InsertKeepsSorted | ExposeIt/Assets/Plugins/ExposeIt/Editor/PlayModeZoneInjector.cs:66 | Insertion into a sorted sequence keeps it sorted by order |
| ProviderOrder.InsertIsStable | ExposeIt/Assets/Plugins/ExposeIt/Editor/PlayModeZoneInjector.cs:66 | The inserted descriptor comes first among those of its order; every other order's descriptors are unchanged |
| ProviderOrder.StableSort | ExposeIt/Assets/Plugins/ExposeIt/Editor/PlayModeZoneInjector.cs:66 | `OrderBy`: the result is sorted by order, a permutation of the input, and for every order keeps the input's relative order |
| ProviderOrder.SortedProviders | ExposeIt/Assets/Plugins/ExposeIt/Editor/PlayModeZoneInjector.cs:55-66 | One descriptor per discovered type, sorted by order, with ties kept in discovery order; each descriptor's type is a discovered one |
| ProviderOrder.SortedHeadIsMinimal | ExposeIt/Assets/Plugins/ExposeIt/Editor/PlayModeZoneInjector.cs:66 | The first element of a sorted sequence has the least order |
| ProviderOrder.InWithOrder | ExposeIt/Assets/Plugins/ExposeIt/Editor/PlayModeZoneInjector.cs:66 | Every descriptor appears among those of its own order |
| ProviderOrder.HeadHasItsOrder | ExposeIt/Assets/Plugins/ExposeIt/Editor/PlayModeZoneInjector.cs:66 | A non-empty sequence has a descriptor of its first element's order |
| ProviderOrder.StableSortIsUnique | ExposeIt/Assets/Plugins/ExposeIt/Editor/PlayModeZoneInjector.cs:66 | Two sorted sequences that agree on every order's subsequence are equal, so a stable sort has only one possible result |
| ProviderOrder.StableSortCharacterized | ExposeIt/Assets/Plugins/ExposeIt/Editor/PlayModeZoneInjector.cs:55-66 | Any sorted sequence that keeps each order's discovery order is the injection order |
| PlayModeZoneFacade.PlayModeZone.constructor | ExposeIt/Assets/Plugins/ExposeIt/Runtime/PlayModeZone.cs:26-28 | All three events start with no subscriber |
| PlayModeZoneFacade.PlayModeZone.SubscribeToAddFunction | ExposeIt/Assets/Plugins/ExposeIt/Runtime/PlayModeZone.cs:26 | `+=` appends the subscriber to the add event only |
| PlayModeZoneFacade.PlayModeZone.SubscribeToAddOrReplaceFunction | ExposeIt/Assets/Plugins/ExposeIt/Runtime/PlayModeZone.cs:27 | `+=` appends the subscriber to the add-or-replace event only |
| PlayModeZoneFacade.PlayModeZone.SubscribeToRemoveFunction | ExposeIt/Assets/Plugins/ExposeIt/Runtime/PlayModeZone.cs:28 | `+=` appends the subscriber to the remove event only |
| PlayModeZoneFacade.PlayModeZone.AddFunction | ExposeIt/Assets/Plugins/ExposeIt/Runtime/PlayModeZone.cs:30-33 | Each add subscriber, in order, and no other, gets the name and action unchanged; with none, nothing is raised; no state changes |
| PlayModeZoneFacade.PlayModeZone.AddOrReplaceFunction | ExposeIt/Assets/Plugins/ExposeIt/Runtime/PlayModeZone.cs:35-38 | Each add-or-replace subscriber, in order, and no other, gets the name and action unchanged; with none, nothing is raised |
| PlayModeZoneFacade.PlayModeZone.RemoveFunction | ExposeIt/Assets/Plugins/ExposeIt/Runtime/PlayModeZone.cs:40-43 | Each remove subscriber, in order, and no other, gets only the name; with none, nothing is raised |
| PlayModeZoneFacade.AddFunctionTwice | ExposeIt/Assets/Plugins/ExposeIt/Runtime/PlayModeZone.cs:30-33 | The facade does not deduplicate: the same name added twice raises a full set of notifications each time, the second carrying the second action |
| PredefinedButton.PredefinedPlayZoneButton.constructor | ExposeIt/Assets/Plugins/ExposeIt/Editor/PredefinedPlayZoneButton.cs:34-100 | A new button has the name "PredefinedPlayZoneButton", no child elements, an empty label and tooltip, the base colour and no handlers |
| PredefinedButton.PredefinedPlayZoneButton.SetText | ExposeIt/Assets/Plugins/ExposeIt/Editor/PredefinedPlayZoneButton.cs:108-112 | The label text and the element name both become the text; nothing else may change |
| PredefinedButton.PredefinedPlayZoneButton.SetTooltip | ExposeIt/Assets/Plugins/ExposeIt/Editor/PredefinedPlayZoneButton.cs:114 | Only the tooltip changes; the label text and name stay |
| PredefinedButton.PredefinedPlayZoneButton.SubscribePointerClicked | ExposeIt/Assets/Plugins/ExposeIt/Editor/PredefinedPlayZoneButton.cs:102 | `PointerClicked +=` appends handlers to the click list only |
| PredefinedButton.PredefinedPlayZoneButton.SubscribePointerDown | ExposeIt/Assets/Plugins/ExposeIt/Editor/PredefinedPlayZoneButton.cs:104 | `PointerDown +=` appends handlers to the pointer-down list only |
| PredefinedButton.PredefinedPlayZoneButton.OnMouseEnter | ExposeIt/Assets/Plugins/ExposeIt/Editor/PredefinedPlayZoneButton.cs:77-80 | Mouse-enter shows the hover colour and changes nothing else |
| PredefinedButton.PredefinedPlayZoneButton.OnMouseLeave | ExposeIt/Assets/Plugins/ExposeIt/Editor/PredefinedPlayZoneButton.cs:81-84 | Mouse-leave restores the base colour and changes nothing else |
| PredefinedButton.PredefinedPlayZoneButton.OnPointerDown | ExposeIt/Assets/Plugins/ExposeIt/Editor/PredefinedPlayZoneButton.cs:87-94 | Propagation stops exactly for mouse button 0; then every pointer-down handler runs in order; otherwise none runs |
| PredefinedButton.PredefinedPlayZoneButton.OnClick | ExposeIt/Assets/Plugins/ExposeIt/Editor/PredefinedPlayZoneButton.cs:96-99 | A click runs every click handler in order; with none attached nothing runs |
| PlayModeZoneInjector.DelayRunInjector | ExposeIt/Assets/Plugins/ExposeIt/Editor/PlayModeZoneInjector.cs:39-48 | Exactly one injector handler is added to each of the three events |
| PlayModeZoneInjector.InjectedName | ExposeIt/Assets/Plugins/ExposeIt/Editor/PlayModeZoneInjector.cs:72-80 | The element-provider shape wins when a provider has both; an updatable label starts with the default button's name |
| PlayModeZoneInjector.ProvideElement | ExposeIt/Assets/Plugins/ExposeIt/Editor/PlayModeZoneInjector.cs:76 | An element provider's element is new and carries the provider's name |
| PlayModeZoneInjector.RunInjector | ExposeIt/Assets/Plugins/ExposeIt/Editor/PlayModeZoneInjector.cs:50-90 | Appends exactly one new element per provider after the unchanged existing children; names follow the stable order; task j carries the j-th label carrier and writes to the new default button appended for the j-th label-only provider, at that provider's position in the sorted order; no two tasks share a button |
| PlayModeZoneInjector.InjectAll | ExposeIt/Assets/Plugins/ExposeIt/Editor/PlayModeZoneInjector.cs:68-89 | The `foreach` over providers in order: one new element per provider after the unchanged existing children, names in provider order, and one refresh task per label-only provider bound to the button appended for it, which still shows an empty label |
| PlayModeZoneInjector.TasksMatchExtend | ExposeIt/Assets/Plugins/ExposeIt/Editor/PlayModeZoneInjector.cs:88 | Appending elements to the zone keeps every scheduled label's button at its position |
| PlayModeZoneInjector.InjectOne | ExposeIt/Assets/Plugins/ExposeIt/Editor/PlayModeZoneInjector.cs:70-88 | One loop turn: one new element appended with the provider's name; a refresh task exactly when the provider is only an updatable label |
| PlayModeZoneInjector.InjectNext | ExposeIt/Assets/Plugins/ExposeIt/Editor/PlayModeZoneInjector.cs:68-88 | One loop turn with its bookkeeping: exactly one fresh element appended, the names extended by the provider's name, and the refresh tasks extended by exactly the task bound to the new element when the provider is label-only |
| PlayModeZoneInjector.LabelPositions | ExposeIt/Assets/Plugins/ExposeIt/Editor/PlayModeZoneInjector.cs:78-85 | One position per label carrier, each within the provider sequence |
| PlayModeZoneInjector.LabelPositionsAreLabels | ExposeIt/Assets/Plugins/ExposeIt/Editor/PlayModeZoneInjector.cs:74-85 | Each label position holds a provider that only implements the label interface and whose carrier is the matching label carrier; the positions increase strictly |
| PlayModeZoneInjector.TasksMatchAppend | ExposeIt/Assets/Plugins/ExposeIt/Editor/PlayModeZoneInjector.cs:78-88 | Injecting one more provider extends the tasks by its own task, bound to the element just appended, exactly when it is label-only |
| PlayModeZoneInjector.TasksMatchDistinct | ExposeIt/Assets/Plugins/ExposeIt/Editor/PlayModeZoneInjector.cs:78-85 | Tasks bound to distinct positions of the zone's distinct children write to distinct buttons |
| PlayModeZoneInjector.RefreshTick | ExposeIt/Assets/Plugins/ExposeIt/Editor/PlayModeZoneInjector.cs:82-85 | A tick sets the button's label and name to the produced text; in the zone exactly that button's entry among the names changes |
| PlayModeZoneInjector.NewFunctionButton | ExposeIt/Assets/Plugins/ExposeIt/Editor/PlayModeZoneInjector.cs:120-122 | A new button named and labelled with the function name, whose only click handler is the action |
| PlayModeZoneInjector.RemoveFirstNamed | ExposeIt/Assets/Plugins/ExposeIt/Editor/PlayModeZoneInjector.cs:97-107 | Lookup then removal: removes exactly the first child with the name when there is one; the names become `RemoveFirst` of the old names |
| PlayModeZoneInjector.OnRemoveButtonRequested | ExposeIt/Assets/Plugins/ExposeIt/Editor/PlayModeZoneInjector.cs:94-108 | Warns exactly when the name is missing, and then leaves the zone unchanged; otherwise removes only the first match, keeping the others in order |
| PlayModeZoneInjector.OnExposeRewriteButtonRequested | ExposeIt/Assets/Plugins/ExposeIt/Editor/PlayModeZoneInjector.cs:110-125 | The first child with the name is removed if there is one; a new button with that name, label and click action is appended at the end |
| PlayModeZoneInjector.OnExposeButtonRequested | ExposeIt/Assets/Plugins/ExposeIt/Editor/PlayModeZoneInjector.cs:127-142 | A present name leaves the zone unchanged; otherwise exactly one new button with that name, label and action is appended |
| PlayModeZoneInjector.Deliver | ExposeIt/Assets/Plugins/ExposeIt/Editor/PlayModeZoneInjector.cs:42-44 | Each injector handler acts on its own event's requests only, and only the remove handler warns, on a missing name |
| PlayModeZoneExample5.Divisor | ExposeIt/Assets/Plugins/ExposeIt/Examples/Editor/PlayModeZoneExample5.cs:52-54 | Each unit is 1024 times the one below, and the largest fits in a 32-bit int |
| PlayModeZoneExample5.SelectUnit | ExposeIt/Assets/Plugins/ExposeIt/Examples/Editor/PlayModeZoneExample5.cs:58-64 | The four bands: B below 1024 (negatives included), KB up to 1024², MB up to 1024³, GB above; exactly one per input |
| PlayModeZoneExample5.FormatBytes | ExposeIt/Assets/Plugins/ExposeIt/Examples/Editor/PlayModeZoneExample5.cs:56-67 | The text is the rendered quotient followed by the selected unit's suffix |
| PlayModeZoneExample5.GetText | ExposeIt/Assets/Plugins/ExposeIt/Examples/Editor/PlayModeZoneExample5.cs:31-36 | The text is "Assets Folder Size: " followed by the formatted size |
| PlayModeZoneExample5.ProvideElement | ExposeIt/Assets/Plugins/ExposeIt/Examples/Editor/PlayModeZoneExample5.cs:25-29 | The label refreshes every 5000 ms with this text getter |
| PlayModeZoneExample5.UnitIsMonotone | ExposeIt/Assets/Plugins/ExposeIt/Examples/Editor/PlayModeZoneExample5.cs:58-64 | A larger byte count never selects a smaller unit |
| PlayModeZoneExample5.ScaledValueRange | ExposeIt/Assets/Plugins/ExposeIt/Examples/Editor/PlayModeZoneExample5.cs:58-64 | In B the value is the byte count; in KB and MB it lies in [1, 1024); in GB it is at least 1 |
| Scenarios.OrderTieKeepsDiscoveryOrder | ExposeIt/Assets/Plugins/ExposeIt/Editor/PlayModeZoneInjector.cs:55-66 | Orders 10, -1, 10 are injected as -1, then the two 10s in discovery order |
| Scenarios.Raise | ExposeIt/Assets/Plugins/ExposeIt/Runtime/PlayModeZone.cs:30-43 | With only the injector subscribed, each facade call raises exactly one notification: the request, unchanged, to the handler of its own event |
| Scenarios.ClientAddFunction | ExposeIt/Assets/Plugins/ExposeIt/Runtime/PlayModeZone.cs:30-33 | Through the facade with the injector loaded, an add acts as add-if-absent on the zone's names |
| Scenarios.ClientAddFunctionTwice | ExposeIt/Assets/Plugins/ExposeIt/Editor/PlayModeZoneInjector.cs:132-135 | Two adds of one name through the facade leave the zone as one add does: at most one element more |
| Scenarios.ClientAddOrReplaceFunction | ExposeIt/Assets/Plugins/ExposeIt/Runtime/PlayModeZone.cs:35-38 | Through the facade with the injector loaded, add-or-replace acts as remove-then-append |
| Scenarios.ClientRemoveFunction | ExposeIt/Assets/Plugins/ExposeIt/Runtime/PlayModeZone.cs:40-43 | Through the facade with the injector loaded, remove drops the first match and warns exactly on a missing name |
| Scenarios.ClientRemoveAfterPrefix | ExposeIt/Assets/Plugins/ExposeIt/Examples/Runtime/PlayModeZoneExample3.cs:63-64 | Removing a name whose first entry follows a prefix without it takes that entry out, keeps the rest in order, and does not warn |
| Scenarios.ClientReplaceLast | ExposeIt/Assets/Plugins/ExposeIt/Examples/Runtime/PlayModeZoneExample3.cs:48-52 | Replacing the name that is already last, and only there, leaves the zone's names unchanged |
| Scenarios.Example3Adds | ExposeIt/Assets/Plugins/ExposeIt/Examples/Runtime/PlayModeZoneExample3.cs:30-52 | One add and three add-or-replaces leave exactly one "TestMe 0" and one "TestMe 1" appended |
| Scenarios.Example3Removes | ExposeIt/Assets/Plugins/ExposeIt/Examples/Runtime/PlayModeZoneExample3.cs:60-68 | The two removals succeed silently; removing "TestMe 2" warns, changes nothing and returns normally |
| Scenarios.Example3Session | ExposeIt/Assets/Plugins/ExposeIt/Examples/Runtime/PlayModeZoneExample3.cs:27-68 | The whole session leaves the zone's names as they were, with warnings false, false, true |
| Scenarios.Example1ProvideElement | ExposeIt/Assets/Plugins/ExposeIt/Examples/Editor/PlayModeZoneExample1.cs:27-36 | The default button renamed and labelled "haha button 2", with tooltip "buya" and exactly one pointer-down and one click handler; its element has the name the matching `ConfiguredDefaultButton` recipe gives |

## Left out

- Finding the zone by reflection (`GetPlayModeZone`) depends on the editor's internal types. The zone is a parameter instead.
- Discovering provider types (`TypeCache`) and instantiating them (`Activator.CreateInstance`) are left out. So are `InitializeOnLoadMethod` and `delayCall`. Discovery is an input sequence of provider types in discovery order, each with the instance it yields.
- `Q` searches all descendants in UI Toolkit. Here it searches the direct children only, returning the first child with the name.
- `VisualElement.Add` of an element that is already a child re-parents it in UI Toolkit. The handlers never do that, and `VisualTree.VisualElement.Add` requires a child that is not present.
- The scheduler (`schedule.Execute(...).Every(ms)`) has no timing here. A refresh is one explicit `RefreshTick`, and the getter's text is an input of the tick. Nothing cancels a scheduled refresh.
- Styling is left out: colours (floating-point `Color`), borders, fonts and padding. Hover is the two-valued `Background`.
- PredefinedButton.PredefinedPlayZoneButton.constructor: the button's own subtree is not modelled. In the source the button holds a container element, which holds a `Label` named "label" (`Editor/PredefinedPlayZoneButton.cs:39`, `:66-67`, `:73-74`). Here the button's element has no children, its label text and tooltip are fields of the button, and the container and the label cannot be found by `Q`.
- PlayModeZoneExample5.FormatBytes: the quotient is an exact real, and the rendering as `"0.##"` in the invariant culture is a function parameter. The `double` division and rounding are not modelled.
- `GetDirectorySize` (file-system I/O, falling back to 0 on error) is left out. `GetText` takes the total size as a parameter.
- `Debug.Log` and `Debug.LogWarning` are left out. The remove handler's warning is the boolean it returns.
- What external subscribers and click handlers do when invoked is unknown code. Facade calls and button events return the list of handlers they invoke instead of running them.
- PlayModeZoneInjector.RunInjector: requires every provider to implement at least one of the two interfaces. With one that implements neither, the source hands a null element to `Add`; that path is not modelled.
- PlayModeZoneInjector.ProvideElement: an element provider's own code is reduced to a recipe, either the default button configured through its public surface or an element known only by its name.
- ProviderOrder.OrderOf: `Order` is a 32-bit `int` in the source and an unbounded `int` here. Only comparisons are made, so nothing overflows.
- PlayModeZoneExample2.cs and PlayModeZoneExample4.cs are not part of this model. Example2 depends on editor play-mode events and `EditorToolbarButton`; Example4 on the clock (`DateTime.Now`) and `EditorApplication.Exit`. Example1 is a usage demo of the default button; it is modelled by `Scenarios.Example1ProvideElement`, and the element it returns is what a `ConfiguredDefaultButton` recipe stands for.
- PredefinedButton.PredefinedPlayZoneButton.AsVisualElement: the button is its element in the source. Here it returns the `root` element the button owns. The function has no contract of its own.
