/** The part of UI Toolkit's `VisualElement` the Play Mode Zone relies on: a name, an
    ordered list of children, lookup of a child by name (`Q`), `Add` and `Remove`.

    The descendant search of `Q` is flattened to the direct children: the zone's lookup
    is "the first child whose name equals the requested name". */
module VisualTree {
  import opened ZoneSpec

  class VisualElement {
    var name: string
    var children: seq<VisualElement>

    constructor (name: string)
      ensures this.name == name && children == []
    {
      this.name := name;
      children := [];
    }

    /** An element is never its own child and holds each child once (UI Toolkit
        re-parents an element instead of holding it twice). */
    ghost predicate Valid()
      reads this
    {
      this !in children && Distinct(children)
    }

    /** The names of the children, in order. */
    function ChildNames(): seq<string>
      reads this, children
    {
      var cs := children;
      seq(|cs|, i requires 0 <= i < |cs| reads cs => cs[i].name)
    }

    /** `Q(name)`: the first child with that name, or null when no child has it. */
    method Q(name: string) returns (found: VisualElement?)
      ensures found == null <==> name !in ChildNames()
      ensures found != null ==> found == children[FirstIndex(ChildNames(), name)]
      ensures found != null ==> found.name == name
    {
      var i := 0;
      while i < |children|
        invariant 0 <= i <= |children|
        invariant name !in ChildNames()[..i]
      {
        if children[i].name == name {
          assert ChildNames()[i] == name;
          return children[i];
        }
        assert ChildNames()[..i + 1] == ChildNames()[..i] + [children[i].name];
        i := i + 1;
      }
      assert ChildNames()[..i] == ChildNames();
      return null;
    }

    /** `Add(child)`: append a child that is not yet in this element. */
    method Add(child: VisualElement)
      requires Valid() && child != this && child !in children
      modifies this`children
      ensures Valid()
      ensures children == old(children) + [child]
      ensures ChildNames() == old(ChildNames()) + [child.name]
    {
      children := children + [child];
      assert ChildNames() == old(ChildNames()) + [child.name];
    }

    /** `Remove(child)`: take out the given child; the other children keep their order. */
    method Remove(child: VisualElement)
      requires Valid() && child in children
      modifies this`children
      ensures Valid()
      ensures 0 <= FirstIndex(old(children), child)
      ensures children == RemoveAt(old(children), FirstIndex(old(children), child))
      ensures ChildNames() == RemoveAt(old(ChildNames()), FirstIndex(old(children), child))
    {
      var k := FirstIndex(children, child);
      RemoveAtKeepsDistinct(children, k);
      children := RemoveAt(children, k);
      assert ChildNames() == RemoveAt(old(ChildNames()), k);
    }
  }
}
