/** The documentation editor's custom MDX components: reading the
    attributes of a JSX element, the tab list of a `TabsWrapper` element
    (its `TabItem` children, named by their `name` attribute) with the
    editor's add, remove, rename and move handlers, and the toolbar dialog
    that validates a component's fields and inserts it. */
module DocsMdx {
  import opened Wrappers
  import opened Text

  const AttributeKind := "mdxJsxAttribute"
  const FlowElementKind := "mdxJsxFlowElement"
  const TabItemName := "TabItem"
  const NameAttribute := "name"
  const ParagraphKind := "paragraph"
  const TabPrefix := "Tab "
  const FirstTab := "Tab 1"
  const DefaultTabs := ["Tab 1", "Tab 2"]
  const RequiredError := "Required"
  const TabsWrapperName := "TabsWrapper"
  const VideoCardName := "VideoCard"
  const AcademyCardName := "AcademyCard"

  /** An attribute value: a string, an expression object `{type, value}`,
      or absent (`null` or `undefined`). */
  datatype AttrValue = Plain(s: string) | Expression(kind: string, value: string) | Absent

  datatype Attribute = Attribute(kind: string, name: string, value: AttrValue)

  /** A node of the MDX syntax tree; `name`, `attributes` and `children`
      may be absent. */
  datatype Node = Node(kind: string, name: Option<string>, attributes: Option<seq<Attribute>>, children: Option<seq<Node>>)

  const EmptyParagraph := Node(ParagraphKind, None, None, Some([]))

  // ---------------------------------------------------------------------
  // Attributes

  /** `readJsxAttributeValue`: a string as it is, an expression's `value`,
      and "" for an absent value. */
  function ReadAttributeValue(v: AttrValue): (r: string)
    ensures v.Absent? ==> r == ""
    ensures v.Plain? ==> r == v.s
    ensures v.Expression? ==> r == v.value
  {
    match v
    case Plain(s) => s
    case Expression(_, value) => value
    case Absent => ""
  }

  predicate Named(a: Attribute, name: string) {
    a.kind == AttributeKind && a.name == name
  }

  /** `findIndex` of the JSX attribute with a name: the first, or -1. */
  function FindIndex(attrs: seq<Attribute>, name: string): (i: int)
    ensures -1 <= i < |attrs|
    ensures i >= 0 ==> Named(attrs[i], name) && forall j :: 0 <= j < i ==> !Named(attrs[j], name)
    ensures i < 0 ==> forall j :: 0 <= j < |attrs| ==> !Named(attrs[j], name)
  {
    if attrs == [] then -1
    else if Named(attrs[0], name) then 0
    else
      var k := FindIndex(attrs[1..], name);
      if k < 0 then -1 else k + 1
  }

  /** `attributes?.find(...)`: the first JSX attribute with the name. */
  function FindAttribute(attrs: Option<seq<Attribute>>, name: string): Option<Attribute> {
    if attrs.None? then None
    else
      var i := FindIndex(attrs.value, name);
      if i < 0 then None else Some(attrs.value[i])
  }

  /** The value `getJsxProps` reads for one name. */
  function PropValue(node: Node, name: string): string {
    var a := FindAttribute(node.attributes, name);
    if a.Some? then ReadAttributeValue(a.value.value) else ""
  }

  /** `getJsxProps`: exactly the requested names, each with the value of
      the first attribute of that name, and "" where there is none. */
  function GetJsxProps(node: Node, propNames: seq<string>): (props: map<string, string>)
    ensures props.Keys == set p | p in propNames
    ensures forall p :: p in propNames ==> props[p] == PropValue(node, p)
    ensures forall p :: p in propNames && FindAttribute(node.attributes, p).None? ==> props[p] == ""
  {
    if propNames == [] then map[]
    else
      var init := propNames[..|propNames| - 1];
      var last := propNames[|propNames| - 1];
      assert forall p :: p in propNames <==> p in init || p == last;
      GetJsxProps(node, init)[last := PropValue(node, last)]
  }

  // ---------------------------------------------------------------------
  // Tabs

  /** A tab is a JSX flow element named `TabItem`; text elements and other
      components are not tabs. */
  predicate IsTabItem(n: Node)
    ensures IsTabItem(n) ==> n.kind == "mdxJsxFlowElement" && n.name == Some("TabItem")
  {
    n.kind == FlowElementKind && n.name == Some(TabItemName)
  }

  /** `getTabItems`: the `TabItem` children, in order. */
  function TabItems(children: seq<Node>): (tabs: seq<Node>)
    ensures |tabs| <= |children|
    ensures forall n :: n in tabs <==> n in children && IsTabItem(n)
  {
    if children == [] then []
    else
      var rest := TabItems(children[1..]);
      assert forall n :: n in children <==> n == children[0] || n in children[1..];
      if IsTabItem(children[0]) then [children[0]] + rest else rest
  }

  /** `getOtherChildren`: every other child, in order. */
  function OtherChildren(children: seq<Node>): (rest: seq<Node>)
    ensures |rest| <= |children|
    ensures forall n :: n in rest <==> n in children && !IsTabItem(n)
  {
    if children == [] then []
    else
      var rest := OtherChildren(children[1..]);
      assert forall n :: n in children <==> n == children[0] || n in children[1..];
      if IsTabItem(children[0]) then rest else [children[0]] + rest
  }

  /** The two filters split the children: together they hold each child
      exactly as often as the children do. */
  lemma {:induction false} TabsPartition(children: seq<Node>)
    ensures multiset(TabItems(children)) + multiset(OtherChildren(children)) == multiset(children)
    decreases |children|
  {
    if children != [] {
      TabsPartition(children[1..]);
      assert children == [children[0]] + children[1..];
    }
  }

  /** Both filters keep order: filtering a concatenation concatenates the
      filtered parts. */
  lemma {:induction false} TabItemsAppend(a: seq<Node>, b: seq<Node>)
    ensures TabItems(a + b) == TabItems(a) + TabItems(b)
    decreases |a|
  {
    if a == [] {
      assert a + b == b;
    } else {
      assert (a + b)[0] == a[0];
      assert (a + b)[1..] == a[1..] + b;
      TabItemsAppend(a[1..], b);
    }
  }

  lemma {:induction false} OtherChildrenAppend(a: seq<Node>, b: seq<Node>)
    ensures OtherChildren(a + b) == OtherChildren(a) + OtherChildren(b)
    decreases |a|
  {
    if a == [] {
      assert a + b == b;
    } else {
      assert (a + b)[0] == a[0];
      assert (a + b)[1..] == a[1..] + b;
      OtherChildrenAppend(a[1..], b);
    }
  }

  predicate AllTabs(tabs: seq<Node>) {
    forall i :: 0 <= i < |tabs| ==> IsTabItem(tabs[i])
  }

  lemma {:induction false} FilterAllTabs(tabs: seq<Node>)
    requires AllTabs(tabs)
    ensures TabItems(tabs) == tabs && OtherChildren(tabs) == []
    decreases |tabs|
  {
    if tabs != [] {
      FilterAllTabs(tabs[1..]);
    }
  }

  lemma {:induction false} FilterNoTabs(rest: seq<Node>)
    requires forall n :: n in rest ==> !IsTabItem(n)
    ensures TabItems(rest) == [] && OtherChildren(rest) == rest
    decreases |rest|
  {
    if rest != [] {
      assert forall n :: n in rest[1..] ==> n in rest;
      FilterNoTabs(rest[1..]);
    }
  }

  /** What `updateTabs` writes (the new tabs, then the other children)
      reads back as those tabs and those other children. */
  lemma TabsThenOthers(tabs: seq<Node>, rest: seq<Node>)
    requires AllTabs(tabs) && forall n :: n in rest ==> !IsTabItem(n)
    ensures TabItems(tabs + rest) == tabs && OtherChildren(tabs + rest) == rest
  {
    TabItemsAppend(tabs, rest);
    OtherChildrenAppend(tabs, rest);
    FilterAllTabs(tabs);
    FilterNoTabs(rest);
  }

  /** `getTabName`: the `name` attribute when it holds a string, else "". */
  function GetTabName(tab: Node): (r: string)
    ensures r != "" ==> tab.attributes.Some? && var i := FindIndex(tab.attributes.value, NameAttribute);
      i >= 0 && tab.attributes.value[i].value == Plain(r)
    ensures FindAttribute(tab.attributes, NameAttribute).None? ==> r == ""
    ensures FindAttribute(tab.attributes, NameAttribute).Some? && !FindAttribute(tab.attributes, NameAttribute).value.value.Plain? ==> r == ""
  {
    var a := FindAttribute(tab.attributes, NameAttribute);
    if a.Some? && a.value.value.Plain? then a.value.value.s else ""
  }

  /** `setTabName`: a copy of the tab whose first `name` attribute holds the
      new name, appended when there was none. The name reads back; the
      other attributes, the tab's type, name and children are kept; the
      attribute count grows only when there was no `name` attribute. */
  function SetTabName(tab: Node, name: string): (r: Node)
    ensures GetTabName(r) == name
    ensures r.kind == tab.kind && r.name == tab.name && r.children == tab.children
    ensures var attrs := tab.attributes.GetOr([]);
      var i := FindIndex(attrs, NameAttribute);
      && r.attributes.Some?
      && |r.attributes.value| == |attrs| + (if i < 0 then 1 else 0)
      && forall j :: 0 <= j < |attrs| && j != i ==> r.attributes.value[j] == attrs[j]
  {
    var attrs := tab.attributes.GetOr([]);
    var i := FindIndex(attrs, NameAttribute);
    var next := if i >= 0 then attrs[i := attrs[i].(value := Plain(name))]
                else attrs + [Attribute(AttributeKind, NameAttribute, Plain(name))];
    assert FindIndex(next, NameAttribute) == (if i >= 0 then i else |attrs|) by {
      var at := if i >= 0 then i else |attrs|;
      assert Named(next[at], NameAttribute);
      assert forall j :: 0 <= j < at ==> next[j] == attrs[j];
    }
    tab.(attributes := Some(next))
  }

  /** The label of the tab at an index: "Tab " and its one-based number. */
  function TabLabel(index: nat): string {
    TabPrefix + NatToString(index + 1)
  }

  /** `createTabItem`: a `TabItem` carrying the name, with one empty
      paragraph as its content. */
  function CreateTabItem(name: string): (t: Node)
    ensures IsTabItem(t) && GetTabName(t) == name
    ensures t.children == Some([EmptyParagraph])
  {
    var t := Node(FlowElementKind, Some(TabItemName), Some([Attribute(AttributeKind, NameAttribute, Plain(name))]), Some([EmptyParagraph]));
    assert FindIndex(t.attributes.value, NameAttribute) == 0;
    t
  }

  /** `tabs.filter((_, i) => i !== index)`: the tab at the index dropped,
      when there is one. */
  function RemoveAt(tabs: seq<Node>, index: int): (r: seq<Node>)
    ensures 0 <= index < |tabs| ==> |r| == |tabs| - 1 && multiset(r) == multiset(tabs) - multiset{tabs[index]}
    ensures !(0 <= index < |tabs|) ==> r == tabs
  {
    if 0 <= index < |tabs| then
      assert tabs == tabs[..index] + [tabs[index]] + tabs[index + 1..];
      tabs[..index] + tabs[index + 1..]
    else tabs
  }

  /** `splice(to, 0, moved)`. */
  function InsertAt(tabs: seq<Node>, index: nat, x: Node): (r: seq<Node>)
    requires index <= |tabs|
    ensures |r| == |tabs| + 1 && r[index] == x && multiset(r) == multiset(tabs) + multiset{x}
  {
    assert tabs == tabs[..index] + tabs[index..];
    tabs[..index] + [x] + tabs[index..]
  }

  /** The tab list after `moveTab(from, to)`: unchanged for a target
      outside the list; otherwise the same tabs, the moved one at the
      target and the others in their relative order. */
  function Moved(tabs: seq<Node>, from: nat, to: int): (r: seq<Node>)
    requires from < |tabs|
    ensures |r| == |tabs| && multiset(r) == multiset(tabs)
    ensures !(0 <= to < |tabs|) ==> r == tabs
    ensures 0 <= to < |tabs| ==> r[to] == tabs[from] && RemoveAt(r, to) == RemoveAt(tabs, from)
  {
    if to < 0 || to >= |tabs| then tabs
    else
      var rest := RemoveAt(tabs, from);
      var r := InsertAt(rest, to, tabs[from]);
      assert RemoveAt(r, to) == rest by {
        assert r[..to] == rest[..to];
        assert r[to + 1..] == rest[to..];
        assert rest == rest[..to] + rest[to..];
      }
      r
  }

  /** Putting a removed tab back where it was restores the list. */
  lemma InsertRemoved(tabs: seq<Node>, index: nat)
    requires index < |tabs|
    ensures InsertAt(RemoveAt(tabs, index), index, tabs[index]) == tabs
  {
    var rest := tabs[..index] + tabs[index + 1..];
    assert rest[..index] == tabs[..index];
    assert rest[index..] == tabs[index + 1..];
    assert tabs == tabs[..index] + [tabs[index]] + tabs[index + 1..];
  }

  /** Moving a tab there and back restores the list. */
  lemma MoveBack(tabs: seq<Node>, from: nat, to: nat)
    requires from < |tabs| && to < |tabs|
    ensures Moved(Moved(tabs, from, to), to, from) == tabs
  {
    var r := Moved(tabs, from, to);
    assert Moved(r, to, from) == InsertAt(RemoveAt(r, to), from, r[to]);
    InsertRemoved(tabs, from);
  }

  /** The tab list after renaming the tab at an index. */
  function Renamed(tabs: seq<Node>, index: int, name: string): (r: seq<Node>)
    ensures |r| == |tabs|
    ensures 0 <= index < |tabs| ==> GetTabName(r[index]) == name
    ensures forall j :: 0 <= j < |tabs| && j != index ==> r[j] == tabs[j]
  {
    if 0 <= index < |tabs| then tabs[index := SetTabName(tabs[index], name)] else tabs
  }

  lemma TabOperationsKeepTabs(tabs: seq<Node>, index: int, name: string)
    requires AllTabs(tabs)
    ensures AllTabs(RemoveAt(tabs, index))
    ensures AllTabs(Renamed(tabs, index, name))
    ensures AllTabs(tabs + [CreateTabItem(name)])
    ensures 0 <= index < |tabs| ==> forall to :: AllTabs(Moved(tabs, index, to))
  {
    RenamedTabs(tabs, index, name);
    AppendedTabs(tabs, CreateTabItem(name));
    if 0 <= index < |tabs| {
      SubMultisetTabs(tabs, RemoveAt(tabs, index));
      forall to ensures AllTabs(Moved(tabs, index, to)) {
        SubMultisetTabs(tabs, Moved(tabs, index, to));
      }
    }
  }

  lemma RenamedTabs(tabs: seq<Node>, index: int, name: string)
    requires AllTabs(tabs)
    ensures AllTabs(Renamed(tabs, index, name))
  {
    var r := Renamed(tabs, index, name);
    forall j | 0 <= j < |r| ensures IsTabItem(r[j]) {
      if j != index {
        assert r[j] == tabs[j];
      }
    }
  }

  lemma AppendedTabs(tabs: seq<Node>, t: Node)
    requires AllTabs(tabs) && IsTabItem(t)
    ensures AllTabs(tabs + [t])
  {
    forall j | 0 <= j < |tabs| + 1 ensures IsTabItem((tabs + [t])[j]) {
      if j < |tabs| {
        assert (tabs + [t])[j] == tabs[j];
      }
    }
  }

  /** Items drawn from a list of tabs are tabs. */
  lemma SubMultisetTabs(tabs: seq<Node>, xs: seq<Node>)
    requires AllTabs(tabs) && multiset(xs) <= multiset(tabs)
    ensures AllTabs(xs)
  {
    forall j | 0 <= j < |xs| ensures IsTabItem(xs[j]) {
      assert xs[j] in multiset(xs);
      assert xs[j] in tabs;
    }
  }

  /** The `TabsWrapper` element being edited: its children, and the index
      of the tab shown. */
  class TabsWrapper {
    var children: seq<Node>
    var activeIndex: int

    function Tabs(): seq<Node>
      reads this
    {
      TabItems(children)
    }

    function Others(): seq<Node>
      reads this
    {
      OtherChildren(children)
    }

    /** The editor opens on the first tab; absent children read as none. */
    constructor (children: Option<seq<Node>>)
      ensures this.children == children.GetOr([]) && activeIndex == 0
    {
      this.children := children.GetOr([]);
      activeIndex := 0;
    }

    /** `updateTabs`: the children become the new tabs followed by the
        other children, which are kept. */
    method UpdateTabs(nextTabs: seq<Node>)
      requires AllTabs(nextTabs)
      modifies this
      ensures children == nextTabs + old(Others())
      ensures Tabs() == nextTabs && Others() == old(Others())
      ensures activeIndex == old(activeIndex)
    {
      TabsThenOthers(nextTabs, Others());
      children := nextTabs + Others();
    }

    /** The effect that keeps the shown tab inside the list: 0 for no
        tabs, the last tab when the index is past the end. */
    method ClampActive()
      modifies this
      ensures children == old(children)
      ensures |Tabs()| == 0 ==> activeIndex == 0
      ensures |Tabs()| > 0 && old(activeIndex) > |Tabs()| - 1 ==> activeIndex == |Tabs()| - 1
      ensures |Tabs()| > 0 && old(activeIndex) <= |Tabs()| - 1 ==> activeIndex == old(activeIndex)
    {
      var tabs := Tabs();
      if |tabs| == 0 {
        activeIndex := 0;
        return;
      }
      if activeIndex > |tabs| - 1 {
        activeIndex := |tabs| - 1;
      }
    }

    /** A click on a tab's button. */
    method Select(index: int)
      modifies this
      ensures activeIndex == index && children == old(children)
    {
      activeIndex := index;
    }

    /** `handleTabNameChange`. */
    method ChangeTabName(index: int, name: string)
      modifies this
      ensures Tabs() == Renamed(old(Tabs()), index, name) && Others() == old(Others())
      ensures activeIndex == old(activeIndex)
    {
      TabOperationsKeepTabs(Tabs(), index, name);
      UpdateTabs(Renamed(Tabs(), index, name));
    }

    /** `handleAddTab`: a tab named after its position is appended and
        shown. */
    method AddTab()
      modifies this
      ensures Tabs() == old(Tabs()) + [CreateTabItem(TabLabel(|old(Tabs())|))]
      ensures Others() == old(Others())
      ensures activeIndex == |old(Tabs())|
      ensures GetTabName(Tabs()[activeIndex]) == TabLabel(activeIndex)
    {
      var name := TabLabel(|Tabs()|);
      TabOperationsKeepTabs(Tabs(), 0, name);
      var nextTabs := Tabs() + [CreateTabItem(name)];
      UpdateTabs(nextTabs);
      activeIndex := |nextTabs| - 1;
    }

    /** `handleRemoveTab`: the tab at the index is dropped; a shown index
        past the new end moves to the last tab, or 0 when none is left. */
    method RemoveTab(index: int)
      modifies this
      ensures Tabs() == RemoveAt(old(Tabs()), index) && Others() == old(Others())
      ensures old(activeIndex) >= |Tabs()| ==> activeIndex == if |Tabs()| > 0 then |Tabs()| - 1 else 0
      ensures old(activeIndex) < |Tabs()| ==> activeIndex == old(activeIndex)
    {
      TabOperationsKeepTabs(Tabs(), index, "");
      var nextTabs := RemoveAt(Tabs(), index);
      UpdateTabs(nextTabs);
      if activeIndex >= |nextTabs| {
        activeIndex := if |nextTabs| - 1 > 0 then |nextTabs| - 1 else 0;
      }
    }

    /** `moveTab(from, to)`, called with the shown tab's index: nothing for
        a target outside the list; otherwise the tab moves there and is
        shown. */
    method MoveTab(from: int, to: int)
      requires 0 <= from < |Tabs()|
      modifies this
      ensures !(0 <= to < |old(Tabs())|) ==> children == old(children) && activeIndex == old(activeIndex)
      ensures 0 <= to < |old(Tabs())| ==>
        Tabs() == Moved(old(Tabs()), from, to) && Others() == old(Others()) && activeIndex == to
    {
      if to < 0 || to >= |Tabs()| {
        return;
      }
      TabOperationsKeepTabs(Tabs(), from, "");
      UpdateTabs(Moved(Tabs(), from, to));
      activeIndex := to;
    }
  }

  // ---------------------------------------------------------------------
  // The toolbar dialog

  datatype ComponentKey = TabsKey | VideoCardKey | AcademyCardKey

  datatype PropField = PropField(name: string, required: bool)

  /** `COMPONENT_FIELDS`: the fields of each component's form. */
  function Fields(key: ComponentKey): seq<PropField> {
    match key
    case TabsKey => []
    case VideoCardKey => [PropField("videoUrl", true), PropField("title", true), PropField("description", true),
                          PropField("thumbnailSrc", false), PropField("thumbnailText", false),
                          PropField("thumbnailSubtext", false)]
    case AcademyCardKey => [PropField("title", true), PropField("description", true), PropField("academyLink", true)]
  }

  /** `formValues[name]?.trim()` is truthy. */
  predicate Filled(formValues: map<string, string>, name: string) {
    name in formValues && Trim(formValues[name]) != ""
  }

  /** The errors `validateProps` records for some fields: "Required" for
      each required field left blank. */
  function FieldErrors(fields: seq<PropField>, formValues: map<string, string>): (errors: map<string, string>)
    ensures forall name :: name in errors <==>
      exists f :: f in fields && f.name == name && f.required && !Filled(formValues, name)
    ensures forall name :: name in errors ==> errors[name] == RequiredError
  {
    if fields == [] then map[]
    else
      var init := fields[..|fields| - 1];
      var last := fields[|fields| - 1];
      assert forall f :: f in fields <==> f in init || f == last;
      var e := FieldErrors(init, formValues);
      if last.required && !Filled(formValues, last.name) then e[last.name := RequiredError] else e
  }

  /** A component's form may be inserted: tabs always, any other when
      every required field holds more than white space. */
  predicate PropsValid(key: ComponentKey, formValues: map<string, string>) {
    key == TabsKey || forall f :: f in Fields(key) && f.required ==> Filled(formValues, f.name)
  }

  /** The tab names typed in the dialog, cleaned: a blank name becomes
      "Tab <its number>", any other is trimmed. */
  function CleanTabNames(tabs: seq<string>): (r: seq<string>)
    ensures |r| == |tabs|
    ensures forall i :: 0 <= i < |r| ==> r[i] != ""
    ensures forall i :: 0 <= i < |r| ==> r[i] == if Trim(tabs[i]) != "" then Trim(tabs[i]) else TabLabel(i)
  {
    seq(|tabs|, i requires 0 <= i < |tabs| => if Trim(tabs[i]) != "" then Trim(tabs[i]) else TabLabel(i))
  }

  /** `.filter(Boolean)` on names. */
  function NonEmpty(names: seq<string>): (r: seq<string>)
    ensures forall n :: n in r <==> n in names && n != ""
    ensures (forall i :: 0 <= i < |names| ==> names[i] != "") ==> r == names
  {
    if names == [] then []
    else
      var rest := NonEmpty(names[1..]);
      if names[0] != "" then [names[0]] + rest else rest
  }

  /** The tab names inserted: the cleaned names (filtering out empty names
      drops none of them), or a single "Tab 1" for an empty list. */
  function EffectiveTabs(tabs: seq<string>): (r: seq<string>)
    ensures |r| >= 1
    ensures tabs != [] ==> r == CleanTabNames(tabs)
    ensures tabs == [] ==> r == [FirstTab]
  {
    var cleaned := NonEmpty(CleanTabNames(tabs));
    if |cleaned| > 0 then cleaned else [FirstTab]
  }

  /** `effectiveTabs.map(createTabItem)`. */
  function TabNodes(names: seq<string>): (nodes: seq<Node>)
    ensures |nodes| == |names| && AllTabs(nodes)
    ensures forall i :: 0 <= i < |names| ==> GetTabName(nodes[i]) == names[i]
  {
    seq(|names|, i requires 0 <= i < |names| => CreateTabItem(names[i]))
  }

  /** The props inserted: the non-blank form values, trimmed. */
  function CleanProps(formValues: map<string, string>): (props: map<string, string>)
    ensures forall k :: k in props <==> Filled(formValues, k)
    ensures forall k :: k in props ==> k in formValues && props[k] == Trim(formValues[k])
  {
    map k | k in formValues && Trim(formValues[k]) != "" :: Trim(formValues[k])
  }

  /** Every required field of a form that passed validation reaches the
      inserted props, non-blank. */
  lemma ValidatedFieldsInserted(key: ComponentKey, formValues: map<string, string>)
    requires PropsValid(key, formValues)
    ensures forall f :: f in Fields(key) && f.required ==> f.name in CleanProps(formValues) && CleanProps(formValues)[f.name] != ""
  {
  }

  /** What `insertJsx` receives: the element's name, its props and, when
      given, its children. */
  datatype Insertion = Insertion(name: string, props: map<string, string>, children: Option<seq<Node>>)

  /** The toolbar's dialog: whether it is open, the component chosen, the
      form's values and errors, and the tab names typed for a tabs
      component. */
  class DocsToolbar {
    var dialogOpen: bool
    var selected: Option<ComponentKey>
    var formValues: map<string, string>
    var formErrors: map<string, string>
    var tabs: seq<string>

    constructor ()
      ensures !dialogOpen && selected.None? && formValues == map[] && formErrors == map[] && tabs == DefaultTabs
    {
      dialogOpen := false;
      selected := None;
      formValues := map[];
      formErrors := map[];
      tabs := DefaultTabs;
    }

    /** `openDialogFor`: the dialog opens on the component with no errors;
        a tabs component starts from the default names and no values, any
        other from an empty value for each of its fields. */
    method OpenDialogFor(key: ComponentKey)
      modifies this
      ensures dialogOpen && selected == Some(key) && formErrors == map[]
      ensures key == TabsKey ==> tabs == DefaultTabs && formValues == map[]
      ensures key != TabsKey ==>
        && tabs == old(tabs)
        && formValues.Keys == (set f | f in Fields(key) :: f.name)
        && (forall name :: name in formValues ==> formValues[name] == "")
    {
      selected := Some(key);
      dialogOpen := true;
      formErrors := map[];
      if key == TabsKey {
        tabs := DefaultTabs;
        formValues := map[];
        return;
      }
      formValues := map f | f in Fields(key) :: f.name := "";
    }

    /** `closeDialog`. */
    method CloseDialog()
      modifies this
      ensures !dialogOpen && selected.None?
      ensures formValues == old(formValues) && formErrors == old(formErrors) && tabs == old(tabs)
    {
      dialogOpen := false;
      selected := None;
    }

    /** A field of the form is edited. */
    method SetFormValue(name: string, value: string)
      modifies this
      ensures formValues == old(formValues)[name := value]
      ensures dialogOpen == old(dialogOpen) && selected == old(selected) && formErrors == old(formErrors) && tabs == old(tabs)
    {
      formValues := formValues[name := value];
    }

    /** The tab names of the dialog are edited. */
    method SetTabs(names: seq<string>)
      modifies this
      ensures tabs == names
      ensures dialogOpen == old(dialogOpen) && selected == old(selected)
      ensures formValues == old(formValues) && formErrors == old(formErrors)
    {
      tabs := names;
    }

    /** `validateProps`: passes without recording errors when no component
        or the tabs component is chosen; otherwise records "Required" for
        each required field left blank and passes exactly when there is
        none. */
    method ValidateProps() returns (ok: bool)
      modifies this
      ensures ok <==> selected.None? || PropsValid(selected.value, formValues)
      ensures (selected.None? || selected == Some(TabsKey)) ==> formErrors == old(formErrors)
      ensures (selected.Some? && selected != Some(TabsKey)) ==> formErrors == FieldErrors(Fields(selected.value), formValues)
      ensures dialogOpen == old(dialogOpen) && selected == old(selected)
      ensures formValues == old(formValues) && tabs == old(tabs)
    {
      if selected.None? || selected == Some(TabsKey) {
        return true;
      }
      var fields := Fields(selected.value);
      var errors: map<string, string> := map[];
      var i := 0;
      while i < |fields|
        invariant 0 <= i <= |fields|
        invariant errors == FieldErrors(fields[..i], formValues)
      {
        assert fields[..i + 1][..i] == fields[..i];
        var field := fields[i];
        if field.required && !Filled(formValues, field.name) {
          errors := errors[field.name := RequiredError];
        }
        i := i + 1;
      }
      assert fields[..i] == fields;
      formErrors := errors;
      ok := |errors.Keys| == 0;
      assert ok <==> forall f :: f in fields && f.required ==> Filled(formValues, f.name) by {
        if !ok {
          var name :| name in errors;
        } else {
          forall f | f in fields && f.required ensures Filled(formValues, f.name) {
            assert f.name !in errors;
          }
        }
      }
    }

    /** `insertComponent`: nothing without a chosen component. A tabs
        component inserts a `TabsWrapper` whose tabs carry the cleaned
        names; any other is inserted only when its form validates, with
        the non-blank values trimmed as props (an academy card with empty
        children). The dialog closes after an insertion; a form that fails
        validation keeps the dialog and the choice, and shows the field
        errors. */
    method InsertComponent() returns (inserted: Option<Insertion>)
      modifies this
      ensures old(selected).None? ==> inserted.None? && dialogOpen == old(dialogOpen) && selected == old(selected)
      ensures old(selected) == Some(TabsKey) ==>
        inserted == Some(Insertion(TabsWrapperName, map[], Some(TabNodes(EffectiveTabs(old(tabs))))))
      ensures old(selected).Some? && old(selected) != Some(TabsKey) ==>
        (inserted.Some? <==> PropsValid(old(selected).value, old(formValues)))
      ensures old(selected) == Some(VideoCardKey) && inserted.Some? ==>
        inserted.value == Insertion(VideoCardName, CleanProps(old(formValues)), None)
      ensures old(selected) == Some(AcademyCardKey) && inserted.Some? ==>
        inserted.value == Insertion(AcademyCardName, CleanProps(old(formValues)), Some([]))
      ensures inserted.Some? ==> !dialogOpen && selected.None?
      ensures inserted.None? && old(selected).Some? ==>
        && dialogOpen == old(dialogOpen) && selected == old(selected)
        && formErrors == FieldErrors(Fields(old(selected).value), old(formValues))
      ensures formValues == old(formValues) && tabs == old(tabs)
    {
      if selected.None? {
        return None;
      }
      if selected == Some(TabsKey) {
        var cleanedTabs := EffectiveTabs(tabs);
        var tabNodes := TabNodes(cleanedTabs);
        inserted := Some(Insertion(TabsWrapperName, map[], Some(tabNodes)));
        CloseDialog();
        return;
      }
      var valid := ValidateProps();
      if !valid {
        return None;
      }
      var props := CleanProps(formValues);
      if selected == Some(VideoCardKey) {
        inserted := Some(Insertion(VideoCardName, props, None));
      } else {
        inserted := Some(Insertion(AcademyCardName, props, Some([])));
      }
      CloseDialog();
    }
  }
}
