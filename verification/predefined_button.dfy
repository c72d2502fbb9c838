/** `PredefinedPlayZoneButton`: the default button handed to providers and created by the
    injector for every named function and every updatable label.

    In the source the button IS a `VisualElement`; here that element is the constant
    `root`, which carries the element name the zone looks buttons up by. Styling is
    reduced to which of the two background colours is showing. */
module PredefinedButton {
  import opened ProviderTypes
  import opened VisualTree

  /** The element name every button starts with. */
  const DefaultName := "PredefinedPlayZoneButton"

  /** The container's background: the base colour, or the hover colour while the mouse is over it. */
  datatype Background = BaseColor | HoverColor

  /** Mouse button index of the primary (left) button in a pointer event. */
  const PrimaryMouseButton := 0

  class PredefinedPlayZoneButton {
    /** The `VisualElement` this button is; its `name` is the button's element name. */
    const root: VisualElement
    /** The text of the inner label. */
    var labelText: string
    /** The tooltip of the inner container. */
    var tooltip: string
    var background: Background
    /** The invocation lists of the `PointerClicked` and `PointerDown` events. */
    var pointerClicked: seq<Action>
    var pointerDown: seq<Action>

    /** A fresh button: default element name, empty label, base colour, no handlers. */
    constructor ()
      ensures fresh(root) && root.name == DefaultName && root.children == []
      ensures labelText == "" && tooltip == "" && background == BaseColor
      ensures pointerClicked == [] && pointerDown == []
    {
      root := new VisualElement(DefaultName);
      labelText := "";
      tooltip := "";
      background := BaseColor;
      pointerClicked := [];
      pointerDown := [];
    }

    /** `AsVisualElement()`: the button itself, as the element to add to a container. */
    function AsVisualElement(): VisualElement {
      root
    }

    /** `SetText(text)`: the label shows `text` and the element is renamed to `text`;
        the tooltip, the colour and the handlers are untouched. */
    method SetText(text: string)
      modifies this`labelText, root`name
      ensures labelText == text && root.name == text
    {
      labelText := text;
      root.name := text;
    }

    /** `SetTooltip(text)`: only the tooltip changes; label text and name stay. */
    method SetTooltip(text: string)
      modifies this`tooltip
      ensures tooltip == text
    {
      tooltip := text;
    }

    /** `PointerClicked += handlers`: the handlers join the end of the invocation list. */
    method SubscribePointerClicked(handlers: seq<Action>)
      modifies this`pointerClicked
      ensures pointerClicked == old(pointerClicked) + handlers
    {
      pointerClicked := pointerClicked + handlers;
    }

    /** `PointerDown += handlers`: the handlers join the end of the invocation list. */
    method SubscribePointerDown(handlers: seq<Action>)
      modifies this`pointerDown
      ensures pointerDown == old(pointerDown) + handlers
    {
      pointerDown := pointerDown + handlers;
    }

    /** Mouse-enter callback: the hover colour shows. */
    method OnMouseEnter()
      modifies this`background
      ensures background == HoverColor
    {
      background := HoverColor;
    }

    /** Mouse-leave callback: the base colour is restored. */
    method OnMouseLeave()
      modifies this`background
      ensures background == BaseColor
    {
      background := BaseColor;
    }

    /** Pointer-down callback. With the primary mouse button every `PointerDown` handler
        runs, in subscription order, and the event stops propagating; with any other
        button nothing runs and the event propagates. */
    method OnPointerDown(mouseButton: int) returns (invoked: seq<Action>, stopPropagation: bool)
      ensures stopPropagation <==> mouseButton == PrimaryMouseButton
      ensures mouseButton == PrimaryMouseButton ==> invoked == pointerDown
      ensures mouseButton != PrimaryMouseButton ==> invoked == []
    {
      if mouseButton == PrimaryMouseButton {
        invoked := pointerDown;
        stopPropagation := true;
      } else {
        invoked := [];
        stopPropagation := false;
      }
    }

    /** Click callback: every `PointerClicked` handler runs, in subscription order; with
        no handler attached nothing runs. */
    method OnClick() returns (invoked: seq<Action>)
      ensures invoked == pointerClicked
      ensures pointerClicked == [] ==> invoked == []
    {
      invoked := pointerClicked;
    }
  }
}
