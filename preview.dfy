/**
 * The preview sandbox script: `Slot`, the icon and dialog stand-ins, the
 * `window` registry the previewed code's exports are attached to, the choice
 * of the primary export, the per-role example scaffolds and `renderPreview`.
 *
 * React elements are `Js.Value.Element` trees; the global object is the map
 * `window`, which the registry class updates the way the script does.
 */
module Preview {
  import opened Wrappers
  import opened Text
  import opened Js
  import ExportNames

  // ===========================================================================
  // Slot, icons and primitives
  // ===========================================================================

  /**
   * `React.cloneElement(element, config)`: the config's props (all but `ref`
   * and `key`) are assigned over the element's, and a config `ref` that is
   * not undefined replaces the element's ref.
   */
  function CloneElement(element: Value, config: seq<Entry>): (r: Value)
    requires element.Element?
    ensures r.Element? && r.kind == element.kind
  {
    var ref := Get(config, "ref");
    Element(element.kind, Spread(element.props, Without(Without(config, "ref"), "key")),
      if ref != Undefined then ref else element.elementRef)
  }

  /**
   * `Slot` rendered with `props` and the forwarded `ref`: a valid element
   * child is cloned with the wrapper's other props, then the child's own
   * props, then the ref; any other child is returned as it is.
   */
  function Slot(props: seq<Entry>, ref: Value): Value {
    var children := Get(props, "children");
    if children.Element? then
      var restProps := Without(props, "children");
      CloneElement(children, Spread(Spread(restProps, children.props), [Entry("ref", ref)]))
    else children
  }

  /**
   * The clone keeps the child's type, every prop the child sets wins over
   * the wrapper's, the wrapper supplies the rest, and the forwarded ref is
   * set whenever it is defined.
   */
  lemma SlotMergesProps(props: seq<Entry>, ref: Value, k: string)
    requires Get(props, "children").Element?
    requires k != "ref" && k != "key"
    ensures var child := Get(props, "children");
      var r := Slot(props, ref);
      && r.Element? && r.kind == child.kind
      && Get(r.props, k) == (if Has(child.props, k) then Get(child.props, k) else Get(Without(props, "children"), k))
      && r.elementRef == (if ref != Undefined then ref else child.elementRef)
  {
    var child := Get(props, "children");
    var restProps := Without(props, "children");
    var inner := Spread(restProps, child.props);
    var config := Spread(inner, [Entry("ref", ref)]);
    GetSpread(inner, [Entry("ref", ref)], k);
    GetSpread(inner, [Entry("ref", ref)], "ref");
    GetSpread(restProps, child.props, k);
    assert Has([Entry("ref", ref)], "ref");
    assert !Has([Entry("ref", ref)], k) by {
      assert [Entry("ref", ref)][..0] == [];
    }
    GetWithout(config, "ref", k);
    GetWithout(Without(config, "ref"), "key", k);
    GetSpread(child.props, Without(Without(config, "ref"), "key"), k);
    GetWithout(config, "ref", "ref");
    GetWithout(Without(config, "ref"), "key", "ref");
    if !Has(child.props, k) && !Has(restProps, k) {
      GetMissing(child.props, k);
      GetMissing(restProps, k);
    }
  }

  /** A child that is not an element is rendered unchanged. */
  lemma SlotPassesNonElements(props: seq<Entry>, ref: Value)
    requires !Get(props, "children").Element?
    ensures Slot(props, ref) == Get(props, "children")
  {
  }

  /** `createIcon(displayName)`: a forwardRef component carrying its display name. */
  function CreateIcon(displayName: string): Value {
    ForwardRef(IconComponent(displayName))
  }

  /** The attributes an icon's `svg` sets before the caller's props are spread over them. */
  function IconAttributes(ref: Value, size: Value, strokeWidth: Value): (r: seq<Entry>)
    ensures |r| == 10
  {
    [ Entry("ref", ref),
      Entry("role", Str("img")),
      Entry("width", size),
      Entry("height", size),
      Entry("viewBox", Str("0 0 24 24")),
      Entry("fill", Str("none")),
      Entry("stroke", Str("currentColor")),
      Entry("strokeWidth", strokeWidth),
      Entry("strokeLinecap", Str("round")),
      Entry("strokeLinejoin", Str("round"))]
  }

  /**
   * What an icon renders for `props` and `ref`: an `svg` whose size and
   * stroke width default to 24 and 2, with the remaining props spread last.
   */
  function RenderIcon(props: seq<Entry>, ref: Value): Value {
    var size := if Get(props, "size") == Undefined then Num(24) else Get(props, "size");
    var strokeWidth := if Get(props, "strokeWidth") == Undefined then Num(2) else Get(props, "strokeWidth");
    var rest := Without(Without(props, "size"), "strokeWidth");
    CreateElement(Tag("svg"), Spread(IconAttributes(ref, size, strokeWidth), rest),
      [CreateElement(Tag("circle"), [Entry("cx", Num(12)), Entry("cy", Num(12)), Entry("r", Num(10))], [])])
  }

  lemma IconAttributesSize(ref: Value, size: Value, strokeWidth: Value)
    ensures Get(IconAttributes(ref, size, strokeWidth), "width") == size
    ensures Get(IconAttributes(ref, size, strokeWidth), "height") == size
  {
    var a := IconAttributes(ref, size, strokeWidth);
    GetLastDefinition(a, "width", 2);
    GetLastDefinition(a, "height", 3);
  }

  /**
   * An icon's width and height are the `size` prop, 24 when it is not given,
   * unless the caller passes `width` or `height` itself, which is spread last.
   */
  lemma IconSize(props: seq<Entry>, ref: Value)
    ensures var svg := RenderIcon(props, ref);
      var size := if Get(props, "size") == Undefined then Num(24) else Get(props, "size");
      && svg.Element? && svg.kind == Tag("svg")
      && Get(svg.props, "width") == (if Has(props, "width") then Get(props, "width") else size)
      && Get(svg.props, "height") == (if Has(props, "height") then Get(props, "height") else size)
  {
    var size := if Get(props, "size") == Undefined then Num(24) else Get(props, "size");
    var strokeWidth := if Get(props, "strokeWidth") == Undefined then Num(2) else Get(props, "strokeWidth");
    var rest := Without(Without(props, "size"), "strokeWidth");
    var base := IconAttributes(ref, size, strokeWidth);
    var circle := CreateElement(Tag("circle"), [Entry("cx", Num(12)), Entry("cy", Num(12)), Entry("r", Num(10))], []);
    var config := Spread(base, rest);
    GetWithout(props, "size", "width");
    GetWithout(Without(props, "size"), "strokeWidth", "width");
    GetWithout(props, "size", "height");
    GetWithout(Without(props, "size"), "strokeWidth", "height");
    GetSpread(base, rest, "width");
    GetSpread(base, rest, "height");
    IconAttributesSize(ref, size, strokeWidth);
    CreateElementShape(Tag("svg"), config, [circle], "width");
    CreateElementShape(Tag("svg"), config, [circle], "height");
    assert RenderIcon(props, ref) == CreateElement(Tag("svg"), config, [circle]);
  }

  /** `createPrimitive(tag)`: a forwardRef component rendering `tag` with the ref and the props. */
  function CreatePrimitive(tag: string): Value {
    ForwardRef(PrimitiveComponent(tag))
  }

  function RenderPrimitive(tag: string, props: seq<Entry>, ref: Value): Value {
    CreateElement(Tag(tag), Spread([Entry("ref", ref)], props), [])
  }

  /** The stand-in `DialogPrimitive` used when the page provides none. */
  const DialogFallback: Value := Obj([
    Entry("Root", CreatePrimitive("div")),
    Entry("Trigger", CreatePrimitive("button")),
    Entry("Portal", Fn("DialogPortal")),
    Entry("Close", CreatePrimitive("button")),
    Entry("Overlay", CreatePrimitive("div")),
    Entry("Content", CreatePrimitive("div")),
    Entry("Title", CreatePrimitive("h2")),
    Entry("Description", CreatePrimitive("p"))])

  /** `FallbackButton`, used by the Card and Modal examples when the code exports no `Button`. */
  const FallbackButton: Value := ForwardRef(FallbackButtonComponent)

  const FallbackButtonClass: string :=
    "inline-flex items-center justify-center gap-2 rounded-md border border-border bg-secondary px-3 py-1.5 text-sm font-medium text-secondary-foreground shadow-xs transition-all"

  /** What `FallbackButton` renders: a `button` whose label defaults to `Button`. */
  function RenderFallbackButton(props: seq<Entry>, ref: Value): Value {
    var children := Get(props, "children");
    CreateElement(Tag("button"),
      Spread([Entry("ref", ref), Entry("className", Str(FallbackButtonClass))], Without(props, "children")),
      [Coalesce(children, Str("Button"))])
  }

  // ===========================================================================
  // The window registry
  // ===========================================================================

  /** `window[k]`: `undefined` for a key the global object does not have. */
  function W(window: map<string, Value>, k: string): Value {
    if k in window then window[k] else Undefined
  }

  /**
   * What the identifier `name` evaluates to in the script: a declaration of
   * the previewed code or of the script itself (`scope`), else a property of
   * the global object, else nothing (`undefined`, standing for the
   * ReferenceError the script catches).
   */
  function Resolve(scope: map<string, Value>, window: map<string, Value>, name: string): Value {
    if name in scope then scope[name] else W(window, name)
  }

  /** The window after `iconNames.forEach(...)`: a falsy entry gets a stand-in icon. */
  function WithIcons(window: map<string, Value>, iconNames: seq<string>): map<string, Value> {
    if iconNames == [] then window
    else
      var before := WithIcons(window, iconNames[..|iconNames| - 1]);
      var name := iconNames[|iconNames| - 1];
      if Truthy(W(before, name)) then before else before[name := CreateIcon(name)]
  }

  /** The window after `attachExport(name)`. */
  function AttachOne(window: map<string, Value>, scope: map<string, Value>, name: string): map<string, Value> {
    if name == "" || name == "default" then window
    else if Resolve(scope, window, name) != Undefined then window[name := Resolve(scope, window, name)]
    else window
  }

  /** The window after `exportedNames.forEach(attachExport)`. */
  function AttachAll(window: map<string, Value>, scope: map<string, Value>, names: seq<string>): map<string, Value> {
    if names == [] then window
    else AttachOne(AttachAll(window, scope, names[..|names| - 1]), scope, names[|names| - 1])
  }

  /**
   * Every imported icon name ends up truthy on the window: one that already
   * was keeps its value, one that was not becomes the stand-in icon, and no
   * other key changes.
   */
  lemma {:induction false} IconsRegistered(window: map<string, Value>, iconNames: seq<string>, k: string)
    ensures W(WithIcons(window, iconNames), k)
      == if k in iconNames && !Truthy(W(window, k)) then CreateIcon(k) else W(window, k)
    ensures k in iconNames ==> Truthy(W(WithIcons(window, iconNames), k))
  {
    if iconNames != [] {
      var init := iconNames[..|iconNames| - 1];
      IconsRegistered(window, init, k);
      assert iconNames == init + [iconNames[|iconNames| - 1]];
    }
  }

  /**
   * After the exports are attached, an export the script's scope defines as
   * something other than `undefined` is on the window with that value; every
   * other key (including `default` and a name only the window knows) keeps
   * what it had.
   */
  lemma {:induction false} ExportsAttached(window: map<string, Value>, scope: map<string, Value>, names: seq<string>, k: string)
    ensures W(AttachAll(window, scope, names), k)
      == if k in names && k != "" && k != "default" && k in scope && scope[k] != Undefined then scope[k]
         else W(window, k)
  {
    if names != [] {
      var init := names[..|names| - 1];
      ExportsAttached(window, scope, init, k);
      assert names == init + [names[|names| - 1]];
    }
  }

  /**
   * `primaryExportName`: the component's own name when it is exported,
   * otherwise the first export that starts with an upper-case ASCII letter
   * and does not end in `Variants`, otherwise the component's name.
   */
  function PrimaryExportName(name: string, exportedNames: seq<string>): string {
    if name in exportedNames then name
    else match FindComponentLike(exportedNames)
      case Some(found) => found
      case None => name
  }

  predicate ComponentLike(name: string) {
    |name| > 0 && 'A' <= name[0] <= 'Z' && !EndsWith(name, "Variants")
  }

  predicate EndsWith(s: string, suffix: string) {
    |suffix| <= |s| && s[|s| - |suffix|..] == suffix
  }

  /** `names.find(...)`: the first component-like name. */
  function FindComponentLike(names: seq<string>): (r: Option<string>)
    ensures r.Some? ==> r.value in names && ComponentLike(r.value)
  {
    if names == [] then None
    else if ComponentLike(names[0]) then Some(names[0])
    else FindComponentLike(names[1..])
  }

  /** `FindComponentLike` returns the first component-like name, and none when there is none. */
  lemma {:induction false} FindComponentLikeFirst(names: seq<string>)
    ensures FindComponentLike(names).None? <==> forall i :: 0 <= i < |names| ==> !ComponentLike(names[i])
    ensures FindComponentLike(names).Some? ==>
      exists i :: 0 <= i < |names| && names[i] == FindComponentLike(names).value
        && forall j :: 0 <= j < i ==> !ComponentLike(names[j])
  {
    if names != [] {
      FindComponentLikeFirst(names[1..]);
      if !ComponentLike(names[0]) {
        assert forall i :: 1 <= i < |names| ==> names[i] == names[1..][i - 1];
        if FindComponentLike(names).Some? {
          var i :| 0 <= i < |names[1..]| && names[1..][i] == FindComponentLike(names).value
            && forall j :: 0 <= j < i ==> !ComponentLike(names[1..][j]);
          assert names[i + 1] == FindComponentLike(names).value;
        }
      } else {
        assert names[0] == FindComponentLike(names).value;
      }
    }
  }

  /** The three cases of `primaryExportName`. */
  lemma PrimaryExportChoice(name: string, exportedNames: seq<string>)
    ensures name in exportedNames ==> PrimaryExportName(name, exportedNames) == name
    ensures name !in exportedNames && (forall i :: 0 <= i < |exportedNames| ==> !ComponentLike(exportedNames[i]))
      ==> PrimaryExportName(name, exportedNames) == name
    ensures var p := PrimaryExportName(name, exportedNames);
      p == name || (p in exportedNames && ComponentLike(p))
    ensures name !in exportedNames && (exists i :: 0 <= i < |exportedNames| && ComponentLike(exportedNames[i])) ==>
      exists i :: 0 <= i < |exportedNames| && PrimaryExportName(name, exportedNames) == exportedNames[i]
        && ComponentLike(exportedNames[i]) && forall j :: 0 <= j < i ==> !ComponentLike(exportedNames[j])
  {
    FindComponentLikeFirst(exportedNames);
  }

  /**
   * The sandbox's global state: the `window` object and the `exportedNames`
   * array the script pushes into.
   */
  class Sandbox {
    var window: map<string, Value>
    var exportedNames: seq<string>

    constructor (initialWindow: map<string, Value>, exported: seq<string>)
      ensures window == initialWindow && exportedNames == exported
    {
      window := initialWindow;
      exportedNames := exported;
    }

    /** `iconNames.forEach(...)`: give every imported icon a stand-in unless the window has it. */
    method RegisterIcons(iconNames: seq<string>)
      modifies this
      ensures window == WithIcons(old(window), iconNames)
      ensures exportedNames == old(exportedNames)
    {
      for i := 0 to |iconNames|
        invariant window == WithIcons(old(window), iconNames[..i])
        invariant exportedNames == old(exportedNames)
      {
        assert iconNames[..i + 1][..i] == iconNames[..i];
        var name := iconNames[i];
        if !Truthy(W(window, name)) {
          window := window[name := CreateIcon(name)];
        }
      }
      assert iconNames[..|iconNames|] == iconNames;
    }

    /** Publishes `cn`, `cva`, `Slot` and `DialogPrimitive` (the window's own one when it has one). */
    method InstallHelpers()
      modifies this
      ensures window == old(window)["cn" := Fn("cn")]["cva" := Fn("cva")]
        ["Slot" := ForwardRef(SlotComponent)]
        ["DialogPrimitive" := Coalesce(W(old(window), "DialogPrimitive"), DialogFallback)]
      ensures exportedNames == old(exportedNames)
    {
      var dialogPrimitive := Coalesce(W(window, "DialogPrimitive"), DialogFallback);
      window := window["cn" := Fn("cn")];
      window := window["cva" := Fn("cva")];
      window := window["Slot" := ForwardRef(SlotComponent)];
      window := window["DialogPrimitive" := dialogPrimitive];
    }

    /** `exportedNames.forEach(attachExport)`. */
    method AttachExports(scope: map<string, Value>)
      modifies this
      ensures window == AttachAll(old(window), scope, old(exportedNames))
      ensures exportedNames == old(exportedNames)
    {
      var names := exportedNames;
      for i := 0 to |names|
        invariant window == AttachAll(old(window), scope, names[..i])
        invariant exportedNames == names
      {
        assert names[..i + 1][..i] == names[..i];
        var name := names[i];
        if name != "" && name != "default" {
          var ref := Resolve(scope, window, name);
          if ref != Undefined {
            window := window[name := ref];
          }
        }
      }
      assert names[..|names|] == names;
    }

    /**
     * Publishes the selected component under its own name when it is
     * defined, and adds the name to the exports if it is not listed.
     */
    method AttachComponent(name: string, scope: map<string, Value>)
      modifies this
      ensures var ref := Resolve(scope, old(window), name);
        && window == (if ref != Undefined then old(window)[name := ref] else old(window))
        && exportedNames == (if ref != Undefined && name !in old(exportedNames)
                             then old(exportedNames) + [name] else old(exportedNames))
    {
      var ref := Resolve(scope, window, name);
      if ref != Undefined {
        window := window[name := ref];
        if name !in exportedNames {
          exportedNames := exportedNames + [name];
        }
      }
    }
  }

  // ===========================================================================
  // The placeholder and the per-role examples
  // ===========================================================================

  const MissingStyle: Value := Obj([
    Entry("padding", Str("1.5rem")),
    Entry("border", Str("1px dashed hsl(var(--border))")),
    Entry("borderRadius", Str("calc(var(--radius) - 2px)")),
    Entry("color", Str("hsl(var(--muted-foreground))")),
    Entry("fontFamily", Str("Inter, system-ui, sans-serif")),
    Entry("fontSize", Str("0.875rem")),
    Entry("backgroundColor", Str("hsla(var(--background), 0.65)"))])

  /** The text of the "not exported" placeholder. */
  function MissingText(missing: string): string {
    "Component \"" + missing + "\" is not exported in this file."
  }

  /** `renderMissing(missing)`: a dashed box saying that `missing` is not exported. */
  function RenderMissing(missing: string): Value {
    CreateElement(Tag("div"), [Entry("style", MissingStyle)], [Str(MissingText(missing))])
  }

  /** The placeholder is a `div` whose only child is the text naming the label. */
  lemma RenderMissingShape(missing: string)
    ensures RenderMissing(missing).kind == Tag("div")
    ensures ChildList(RenderMissing(missing)) == [Str(MissingText(missing))]
    ensures Get(RenderMissing(missing).props, "style") == MissingStyle
  {
    CreateElementShape(Tag("div"), [Entry("style", MissingStyle)], [Str(MissingText(missing))], "style");
  }

  /** `typeof primaryComponent === 'function' ? primaryComponent : null`. */
  function FunctionOrNull(primary: Value): Value {
    if IsFunction(primary) then primary else Null
  }

  /** A `React.createElement(component, props, ...children)` call with a component value. */
  function Make(component: Value, props: seq<Entry>, children: seq<Value>): (e: Value)
    ensures e.Element? && e.kind == Component(component)
  {
    CreateElement(Component(component), props, children)
  }

  /** A `React.createElement(tag, { className }, ...children)` call. */
  function Box(tag: string, className: string, children: seq<Value>): (e: Value)
    ensures e.Element? && e.kind == Tag(tag)
  {
    CreateElement(Tag(tag), [Entry("className", Str(className))], children)
  }

  /** What a `Box` holds: its children and its class name. */
  lemma BoxShape(tag: string, className: string, children: seq<Value>)
    requires |children| != 1 || !(children[0].Arr? || children[0].Undefined?)
    ensures ChildList(Box(tag, className, children)) == children
    ensures Get(Box(tag, className, children).props, "className") == Str(className)
  {
    CreateElementShape(Tag(tag), [Entry("className", Str(className))], children, "className");
  }

  /** What a `Make` holds: its children and the props it was given. */
  lemma MakeShape(component: Value, props: seq<Entry>, children: seq<Value>, k: string)
    requires k != "ref" && k != "key" && k != "children"
    requires |children| != 1 || !(children[0].Arr? || children[0].Undefined?)
    requires |children| != 0 || !Has(props, "children")
    ensures ChildList(Make(component, props, children)) == children
    ensures Get(Make(component, props, children).props, k) == Get(props, k)
  {
    CreateElementShape(Component(component), props, children, k);
  }

  // --- Button -----------------------------------------------------------------

  /** The three buttons of the Button example. */
  function ButtonVariants(button: Value): (r: seq<Value>)
    ensures |r| == 3
    ensures forall i :: 0 <= i < 3 ==> r[i].Element? && r[i].kind == Component(button)
  {
    seq(3, i requires 0 <= i < 3 => Make(button, ButtonProps(i), [Str(ButtonLabel(i))]))
  }

  /** The props of the `i`-th example button: none, then `secondary`, then `outline`. */
  function ButtonProps(i: int): seq<Entry> {
    if i == 0 then [] else if i == 1 then [Entry("variant", Str("secondary"))] else [Entry("variant", Str("outline"))]
  }

  function ButtonLabel(i: int): string {
    if i == 0 then "Primary" else if i == 1 then "Secondary" else "Outline"
  }

  /** The Button example: three buttons, or the placeholder when there is no button component. */
  function ButtonExample(window: map<string, Value>, primary: Value): (r: Value)
    ensures r.Element?
  {
    var button := Or(W(window, "Button"), FunctionOrNull(primary));
    if !Truthy(button) then RenderMissing("Button")
    else Box("div", "flex w-full max-w-xs flex-col gap-2", ButtonVariants(button))
  }

  /**
   * The Button example is the placeholder exactly when neither `window.Button`
   * nor a function primary component exists; otherwise it shows three
   * buttons of the window's `Button`, else of the primary component.
   */
  lemma ButtonExampleShape(window: map<string, Value>, primary: Value)
    ensures var r := ButtonExample(window, primary);
      r == RenderMissing("Button") <==> !Truthy(W(window, "Button")) && !IsFunction(primary)
    ensures Truthy(W(window, "Button")) || IsFunction(primary) ==>
      var button := if Truthy(W(window, "Button")) then W(window, "Button") else primary;
      var children := ChildList(ButtonExample(window, primary));
      && |children| == 3
      && forall i :: 0 <= i < 3 ==> children[i].Element? && children[i].kind == Component(button)
  {
    RenderMissingShape("Button");
    var button := Or(W(window, "Button"), FunctionOrNull(primary));
    if Truthy(button) {
      BoxShape("div", "flex w-full max-w-xs flex-col gap-2", ButtonVariants(button));
    }
  }

  // --- Card -------------------------------------------------------------------

  /** `CardTitle ? createElement(CardTitle, null, 'Project status') : <h3 …>`. */
  function CardTitleNode(window: map<string, Value>): Value {
    if Truthy(W(window, "CardTitle")) then Make(W(window, "CardTitle"), [], [Str("Project status")])
    else Box("h3", "text-lg font-semibold text-foreground", [Str("Project status")])
  }

  function CardDescriptionNode(window: map<string, Value>): Value {
    if Truthy(W(window, "CardDescription")) then
      Make(W(window, "CardDescription"), [], [Str("Live metrics for your selected teams.")])
    else Box("p", "text-sm text-muted-foreground", [Str("Live metrics for your selected teams.")])
  }

  /** The button component the Card and Modal examples use. */
  function ExampleButton(window: map<string, Value>): Value {
    Or(W(window, "Button"), FallbackButton)
  }

  function CardHeaderNode(window: map<string, Value>): Value {
    var action := Make(ExampleButton(window), [Entry("size", Str("sm")), Entry("variant", Str("outline"))], [Str("Manage")]);
    if Truthy(W(window, "CardHeader")) then
      Make(W(window, "CardHeader"), [], [
        CardTitleNode(window),
        CardDescriptionNode(window),
        if Truthy(W(window, "CardAction")) then Make(W(window, "CardAction"), [], [action])
        else Box("div", "col-start-2 row-span-2 row-start-1 self-start justify-self-end", [action])])
    else Box("div", "flex items-start justify-between px-6 pt-6", [
      Box("div", "space-y-1.5 text-left", [CardTitleNode(window), CardDescriptionNode(window)]),
      action])
  }

  /** One statistic row: its label on the left, value and trend on the right. */
  function StatRow(caption: string, value: string, trend: string): Value {
    CreateElement(Tag("div"), [
        Entry("key", Str(caption)),
        Entry("className", Str("flex items-center justify-between rounded-md border border-dashed border-border/50 px-3 py-2"))], [
      CreateElement(Tag("div"), [], [Str(caption)]),
      Box("div", "text-right", [
        Box("div", "text-foreground font-medium", [Str(value)]),
        Box("div", "text-xs text-muted-foreground", [Str(trend)])])])
  }

  /** The three statistic rows, in order. */
  function StatRows(): (r: seq<Value>)
    ensures |r| == 3
  {
    seq(3, i requires 0 <= i < 3 => StatRow(Stat(i).0, Stat(i).1, Stat(i).2))
  }

  /** The label, value and trend of the `i`-th statistic. */
  function Stat(i: int): (string, string, string) {
    if i == 0 then ("Active sprints", "5", "+1")
    else if i == 1 then ("Weekly velocity", "62 pts", "+8%")
    else ("Review queue", "12 PRs", "-3")
  }

  function CardContentNode(window: map<string, Value>): Value {
    var className := "grid gap-4 px-6 pb-6 text-sm text-muted-foreground";
    if Truthy(W(window, "CardContent")) then
      Make(W(window, "CardContent"), [Entry("className", Str(className))], StatRows())
    else Box("div", className, StatRows())
  }

  function CardFooterButtons(window: map<string, Value>): seq<Value> {
    [ Make(ExampleButton(window), [Entry("key", Str("invite")), Entry("variant", Str("secondary")), Entry("size", Str("sm"))], [Str("Invite")]),
      Make(ExampleButton(window), [Entry("key", Str("report")), Entry("size", Str("sm"))], [Str("View report")])]
  }

  function CardFooterNode(window: map<string, Value>): Value {
    if Truthy(W(window, "CardFooter")) then
      Make(W(window, "CardFooter"), [Entry("className", Str("gap-2 px-6 pb-6"))], CardFooterButtons(window))
    else Box("div", "flex items-center gap-2 px-6 pb-6", CardFooterButtons(window))
  }

  /** The card's three sections, in order. */
  function CardSections(window: map<string, Value>): (r: seq<Value>)
    ensures |r| == 3
  {
    seq(3, i requires 0 <= i < 3 => CardSection(window, i))
  }

  /** The `i`-th section: the header, then the statistics, then the footer. */
  function CardSection(window: map<string, Value>, i: int): Value {
    if i == 0 then CardHeaderNode(window) else if i == 1 then CardContentNode(window) else CardFooterNode(window)
  }

  /** The Card example: header, statistics and footer inside the card component. */
  function CardExample(window: map<string, Value>, primary: Value): (r: Value)
    ensures r.Element?
  {
    var card := Or(W(window, "Card"), FunctionOrNull(primary));
    if !Truthy(card) then RenderMissing("Card")
    else Make(card, [Entry("className", Str("w-full max-w-sm space-y-0"))],
      CardSections(window))
  }

  /** The Card example is the placeholder exactly when there is no card component. */
  lemma CardExampleMissing(window: map<string, Value>, primary: Value)
    ensures CardExample(window, primary) == RenderMissing("Card")
      <==> !Truthy(W(window, "Card")) && !IsFunction(primary)
  {
    RenderMissingShape("Card");
  }

  /**
   * Otherwise it is the card component (the window's `Card`, else the
   * primary function) holding the header, the statistics and the footer.
   */
  lemma CardExampleShape(window: map<string, Value>, primary: Value)
    requires Truthy(W(window, "Card")) || IsFunction(primary)
    ensures var r := CardExample(window, primary);
      && r.kind == Component(if Truthy(W(window, "Card")) then W(window, "Card") else primary)
      && ChildList(r) == CardSections(window)
  {
    var card := Or(W(window, "Card"), FunctionOrNull(primary));
    MakeShape(card, [Entry("className", Str("w-full max-w-sm space-y-0"))],
      CardSections(window), "className");
  }

  /** The card's content lists the three statistic rows. */
  lemma CardContentShape(window: map<string, Value>)
    ensures ChildList(CardContentNode(window)) == StatRows()
  {
    var className := "grid gap-4 px-6 pb-6 text-sm text-muted-foreground";
    if Truthy(W(window, "CardContent")) {
      MakeShape(W(window, "CardContent"), [Entry("className", Str(className))], StatRows(), "className");
    } else {
      BoxShape("div", className, StatRows());
    }
  }

  /** The card's footer holds the two footer buttons. */
  lemma CardFooterShape(window: map<string, Value>)
    ensures ChildList(CardFooterNode(window)) == CardFooterButtons(window)
  {
    if Truthy(W(window, "CardFooter")) {
      MakeShape(W(window, "CardFooter"), [Entry("className", Str("gap-2 px-6 pb-6"))], CardFooterButtons(window), "className");
    } else {
      BoxShape("div", "flex items-center gap-2 px-6 pb-6", CardFooterButtons(window));
    }
  }

  // --- Input ------------------------------------------------------------------

  /** The Input example: a label and an email input. */
  function InputExample(window: map<string, Value>, primary: Value): (r: Value)
    ensures r.Element?
  {
    var input := Or(W(window, "Input"), FunctionOrNull(primary));
    if !Truthy(input) then RenderMissing("Input")
    else Box("div", "flex w-full max-w-sm flex-col gap-2", [EmailLabel, EmailField(input)])
  }

  const EmailLabel: Value := Box("label", "text-sm font-medium text-foreground", [Str("Email")])

  function EmailField(input: Value): Value {
    Make(input, [
      Entry("placeholder", Str("maria@example.com")),
      Entry("type", Str("email")),
      Entry("defaultValue", Str(""))], [])
  }

  /** The Input example is the placeholder exactly when there is no input component. */
  lemma InputExampleMissing(window: map<string, Value>, primary: Value)
    ensures InputExample(window, primary) == RenderMissing("Input")
      <==> !Truthy(W(window, "Input")) && !IsFunction(primary)
  {
    RenderMissingShape("Input");
    var input := Or(W(window, "Input"), FunctionOrNull(primary));
    if Truthy(input) {
      BoxShape("div", "flex w-full max-w-sm flex-col gap-2", [EmailLabel, EmailField(input)]);
    }
  }

  /** Otherwise its second child is the input component, asking for an email address. */
  lemma InputExampleShape(window: map<string, Value>, primary: Value)
    requires Truthy(W(window, "Input")) || IsFunction(primary)
    ensures var children := ChildList(InputExample(window, primary));
      && |children| == 2
      && children[1].Element?
      && children[1].kind == Component(if Truthy(W(window, "Input")) then W(window, "Input") else primary)
      && Get(children[1].props, "type") == Str("email")
  {
    var input := Or(W(window, "Input"), FunctionOrNull(primary));
    BoxShape("div", "flex w-full max-w-sm flex-col gap-2", [EmailLabel, EmailField(input)]);
    EmailFieldShape(input);
  }

  /** The email field is the input component with `type` set to `email`. */
  lemma EmailFieldShape(input: Value)
    ensures Get(EmailField(input).props, "type") == Str("email")
  {
    var config := [
      Entry("placeholder", Str("maria@example.com")),
      Entry("type", Str("email")),
      Entry("defaultValue", Str(""))];
    assert |config[2].key| != |"type"|;
    GetLastDefinition(config, "type", 1);
    assert forall j :: 0 <= j < 3 ==> |config[j].key| != |"children"|;
    HasNone(config, "children");
    MakeShape(input, config, [], "type");
  }

  // --- Modal ------------------------------------------------------------------

  const ModalTitle := "Invite collaborators"
  const ModalDescription := "Preview and refine the dialog appearance before shipping."

  function ModalHeaderNode(window: map<string, Value>): Value {
    if Truthy(W(window, "DialogHeader")) then
      Make(W(window, "DialogHeader"), [], [
        if Truthy(W(window, "DialogTitle")) then Make(W(window, "DialogTitle"), [], [Str(ModalTitle)])
        else Box("h3", "text-lg font-semibold text-foreground", [Str(ModalTitle)]),
        if Truthy(W(window, "DialogDescription")) then Make(W(window, "DialogDescription"), [], [Str(ModalDescription)])
        else Box("p", "text-sm text-muted-foreground", [Str(ModalDescription)])])
    else Box("div", "space-y-1.5 text-left", [
      Box("h3", "text-lg font-semibold text-foreground", [Str(ModalTitle)]),
      Box("p", "text-sm text-muted-foreground", [Str(ModalDescription)])])
  }

  function ModalFooterNode(window: map<string, Value>): Value {
    var buttons := [
      Make(ExampleButton(window), [Entry("variant", Str("outline"))], [Str("Cancel")]),
      Make(ExampleButton(window), [], [Str("Send invites")])];
    if Truthy(W(window, "DialogFooter")) then Make(W(window, "DialogFooter"), [], buttons)
    else Box("div", "flex justify-end gap-2 pt-4", buttons)
  }

  function ModalContentNode(window: map<string, Value>): Value {
    Make(W(window, "DialogContent"), [Entry("className", Str("sm:max-w-md space-y-4"))], ModalSections(window))
  }

  /** The content panel's three sections, in order. */
  function ModalSections(window: map<string, Value>): (r: seq<Value>)
    ensures |r| == 3
  {
    seq(3, i requires 0 <= i < 3 => ModalSection(window, i))
  }

  /** The `i`-th section: the header, then the explanatory text, then the footer. */
  function ModalSection(window: map<string, Value>, i: int): Value {
    if i == 0 then ModalHeaderNode(window)
    else if i == 1 then
      Box("div", "text-sm text-muted-foreground",
        [Str("This modal stays open in the sandbox so you can inspect focus and overlay styles.")])
    else ModalFooterNode(window)
  }

  /** The dialog the Modal example opens: `window.Dialog || window.Modal || primary function`. */
  function ModalDialog(window: map<string, Value>, primary: Value): Value {
    Or(Or(W(window, "Dialog"), W(window, "Modal")), FunctionOrNull(primary))
  }

  /** The Modal example: an open dialog holding the content panel. */
  function ModalExample(window: map<string, Value>, primary: Value): (r: Value)
    ensures r.Element?
  {
    var dialog := ModalDialog(window, primary);
    if !Truthy(dialog) || !Truthy(W(window, "DialogContent")) then RenderMissing("Modal")
    else Make(dialog, [Entry("open", Bool(true))], [ModalContentNode(window)])
  }

  /**
   * The Modal example is the placeholder exactly when there is no dialog or
   * no `DialogContent`.
   */
  lemma ModalExampleMissing(window: map<string, Value>, primary: Value)
    ensures ModalExample(window, primary) == RenderMissing("Modal")
      <==> ((!Truthy(W(window, "Dialog")) && !Truthy(W(window, "Modal")) && !IsFunction(primary))
            || !Truthy(W(window, "DialogContent")))
  {
    RenderMissingShape("Modal");
    var dialog := ModalDialog(window, primary);
    if Truthy(dialog) && Truthy(W(window, "DialogContent")) {
      CreateElementShape(Component(dialog), [Entry("open", Bool(true))], [ModalContentNode(window)], "open");
    }
  }

  /** Otherwise it is the dialog, opened, around the content panel. */
  lemma ModalExampleShape(window: map<string, Value>, primary: Value)
    requires Truthy(W(window, "Dialog")) || Truthy(W(window, "Modal")) || IsFunction(primary)
    requires Truthy(W(window, "DialogContent"))
    ensures var r := ModalExample(window, primary);
      && r.kind == Component(ModalDialog(window, primary))
      && Get(r.props, "open") == Bool(true)
      && ChildList(r) == [ModalContentNode(window)]
  {
    var dialog := ModalDialog(window, primary);
    CreateElementShape(Component(dialog), [Entry("open", Bool(true))], [ModalContentNode(window)], "open");
  }

  // --- Table ------------------------------------------------------------------

  /** A table part: the window's component when it is truthy, else the plain tag it stands for. */
  function Part(window: map<string, Value>, key: string, tag: string): Kind {
    if Truthy(W(window, key)) then Component(W(window, key)) else Tag(tag)
  }

  function Cell(window: map<string, Value>, props: seq<Entry>, text: string): Value {
    CreateElement(Part(window, "TableCell", "td"), props, [Str(text)])
  }

  function Head(window: map<string, Value>, props: seq<Entry>, text: string): Value {
    CreateElement(Part(window, "TableHead", "th"), props, [Str(text)])
  }

  function Row(window: map<string, Value>, props: seq<Entry>, cells: seq<Value>): Value {
    CreateElement(Part(window, "TableRow", "tr"), props, cells)
  }

  /** The four cells of a body row. */
  function BodyCells(window: map<string, Value>, team: string, owner: string, status: string, velocity: string): (r: seq<Value>)
    ensures |r| == 4
    ensures forall i :: 0 <= i < 4 ==> r[i].Element? && r[i].kind == Part(window, "TableCell", "td")
  {
    seq(4, i requires 0 <= i < 4 =>
      Cell(window, if i == 3 then [Entry("className", Str("text-right font-medium"))] else [],
        [team, owner, status, velocity][i]))
  }

  function BodyRow(window: map<string, Value>, team: string, owner: string, status: string, velocity: string): Value {
    Row(window, [Entry("key", Str(team))], BodyCells(window, team, owner, status, velocity))
  }

  function BodyRows(window: map<string, Value>): (r: seq<Value>)
    ensures |r| == 3
  {
    seq(3, i requires 0 <= i < 3 => BodyRow(window, Team(i).0, Team(i).1, Team(i).2, Team(i).3))
  }

  /** The team, owner, status and velocity of the `i`-th body row. */
  function Team(i: int): (string, string, string, string) {
    if i == 0 then ("Design", "Alice", "Active", "48 pts")
    else if i == 1 then ("Frontend", "Leon", "In review", "56 pts")
    else ("QA", "Priya", "Pending", "58 pts")
  }

  /** The four heads of the header row. */
  function HeadCells(window: map<string, Value>): (r: seq<Value>)
    ensures |r| == 4
    ensures forall i :: 0 <= i < 4 ==> r[i].Element? && r[i].kind == Part(window, "TableHead", "th")
  {
    seq(4, i requires 0 <= i < 4 =>
      Head(window, if i == 3 then [Entry("className", Str("text-right"))] else [], HeadLabel(i)))
  }

  function HeadLabel(i: int): string {
    if i == 0 then "Team" else if i == 1 then "Owner" else if i == 2 then "Status" else "Velocity"
  }

  function HeaderRow(window: map<string, Value>): Value {
    Row(window, [], HeadCells(window))
  }

  function FooterRow(window: map<string, Value>): Value {
    Row(window, [], [
      Cell(window, [Entry("colSpan", Num(2))], "Average velocity"),
      Cell(window, [Entry("className", Str("text-right text-muted-foreground"))], "Across teams"),
      Cell(window, [Entry("className", Str("text-right font-semibold"))], "54 pts")])
  }

  /**
   * The caption. The script guards it with `Caption ? ... : null`, but the
   * caption part is never falsy (a missing one is replaced by the tag), so
   * the caption is always there.
   */
  function CaptionNode(window: map<string, Value>): Value {
    CreateElement(Part(window, "TableCaption", "caption"),
      [Entry("className", Str("px-2 text-sm text-muted-foreground"))], [Str("Sprint health overview")])
  }

  function TableHeaderNode(window: map<string, Value>): Value {
    CreateElement(Part(window, "TableHeader", "thead"), [], [HeaderRow(window)])
  }

  function TableBodyNode(window: map<string, Value>): Value {
    CreateElement(Part(window, "TableBody", "tbody"), [], BodyRows(window))
  }

  function TableFooterNode(window: map<string, Value>): Value {
    CreateElement(Part(window, "TableFooter", "tfoot"), [], [FooterRow(window)])
  }

  /** The table's four sections, in order. */
  function TableChildren(window: map<string, Value>): (r: seq<Value>)
    ensures |r| == 4
  {
    seq(4, i requires 0 <= i < 4 => TableSection(window, i))
  }

  /** The `i`-th section: the caption, then the header, the body and the footer. */
  function TableSection(window: map<string, Value>, i: int): Value {
    if i == 0 then CaptionNode(window)
    else if i == 1 then TableHeaderNode(window)
    else if i == 2 then TableBodyNode(window)
    else TableFooterNode(window)
  }

  /** The Table example: caption, header, three body rows and footer. */
  function TableExample(window: map<string, Value>, primary: Value): (r: Value)
    ensures r.Element?
  {
    var table := Or(W(window, "Table"), FunctionOrNull(primary));
    if !Truthy(table) then RenderMissing("Table")
    else Make(table, [Entry("className", Str("w-full max-w-2xl overflow-hidden rounded-lg border border-border/40"))],
      TableChildren(window))
  }

  /** The Table example is the placeholder exactly when there is no table component. */
  lemma TableExampleMissing(window: map<string, Value>, primary: Value)
    ensures var r := TableExample(window, primary);
      r == RenderMissing("Table") <==> !Truthy(W(window, "Table")) && !IsFunction(primary)
    ensures Truthy(W(window, "Table")) || IsFunction(primary) ==>
      var r := TableExample(window, primary);
      && r.kind == Component(if Truthy(W(window, "Table")) then W(window, "Table") else primary)
      && ChildList(r) == TableChildren(window)
  {
    RenderMissingShape("Table");
    var table := Or(W(window, "Table"), FunctionOrNull(primary));
    if Truthy(table) {
      CreateElementShape(Component(table),
        [Entry("className", Str("w-full max-w-2xl overflow-hidden rounded-lg border border-border/40"))],
        TableChildren(window), "className");
    }
  }

  /** Every row has the row part's kind and holds four cells of the cell part's kind. */
  lemma BodyRowShape(window: map<string, Value>, team: string, owner: string, status: string, velocity: string)
    ensures var row := BodyRow(window, team, owner, status, velocity);
      && row.kind == Part(window, "TableRow", "tr")
      && |ChildList(row)| == 4
      && forall i :: 0 <= i < 4 ==> ChildList(row)[i].Element? && ChildList(row)[i].kind == Part(window, "TableCell", "td")
  {
    CreateElementShape(Part(window, "TableRow", "tr"), [Entry("key", Str(team))],
      BodyCells(window, team, owner, status, velocity), "className");
  }

  /** The header row holds four heads of the head part's kind. */
  lemma HeaderRowShape(window: map<string, Value>)
    ensures var row := HeaderRow(window);
      && row.kind == Part(window, "TableRow", "tr")
      && |ChildList(row)| == 4
      && forall i :: 0 <= i < 4 ==> ChildList(row)[i].Element? && ChildList(row)[i].kind == Part(window, "TableHead", "th")
  {
    CreateElementShape(Part(window, "TableRow", "tr"), [], HeadCells(window), "className");
  }

  /** The footer row holds three cells, the first spanning two columns. */
  lemma FooterRowShape(window: map<string, Value>)
    ensures var row := FooterRow(window);
      && row.kind == Part(window, "TableRow", "tr")
      && |ChildList(row)| == 3
      && ChildList(row)[0].Element? && ChildList(row)[0].kind == Part(window, "TableCell", "td")
      && Get(ChildList(row)[0].props, "colSpan") == Num(2)
  {
    var cells := [
      Cell(window, [Entry("colSpan", Num(2))], "Average velocity"),
      Cell(window, [Entry("className", Str("text-right text-muted-foreground"))], "Across teams"),
      Cell(window, [Entry("className", Str("text-right font-semibold"))], "54 pts")];
    CreateElementShape(Part(window, "TableRow", "tr"), [], cells, "className");
    CreateElementShape(Part(window, "TableCell", "td"), [Entry("colSpan", Num(2))], [Str("Average velocity")], "colSpan");
  }

  /** The caption is always there, of the caption part's kind. */
  lemma CaptionShape(window: map<string, Value>)
    ensures CaptionNode(window).kind == Part(window, "TableCaption", "caption")
    ensures ChildList(CaptionNode(window)) == [Str("Sprint health overview")]
  {
    CreateElementShape(Part(window, "TableCaption", "caption"),
      [Entry("className", Str("px-2 text-sm text-muted-foreground"))], [Str("Sprint health overview")], "className");
  }

  /** The header section holds the header row. */
  lemma TableHeaderShape(window: map<string, Value>)
    ensures TableHeaderNode(window).kind == Part(window, "TableHeader", "thead")
    ensures ChildList(TableHeaderNode(window)) == [HeaderRow(window)]
  {
    CreateElementShape(Part(window, "TableHeader", "thead"), [], [HeaderRow(window)], "className");
  }

  /** The body section holds the three body rows. */
  lemma TableBodyShape(window: map<string, Value>)
    ensures TableBodyNode(window).kind == Part(window, "TableBody", "tbody")
    ensures ChildList(TableBodyNode(window)) == BodyRows(window)
  {
    CreateElementShape(Part(window, "TableBody", "tbody"), [], BodyRows(window), "className");
  }

  /** The footer section holds the footer row. */
  lemma TableFooterShape(window: map<string, Value>)
    ensures TableFooterNode(window).kind == Part(window, "TableFooter", "tfoot")
    ensures ChildList(TableFooterNode(window)) == [FooterRow(window)]
  {
    CreateElementShape(Part(window, "TableFooter", "tfoot"), [], [FooterRow(window)], "className");
  }

  // ===========================================================================
  // renderPreview
  // ===========================================================================

  /** `previewElements[name]`, run: the role example for the five roles that have one. */
  function RoleExample(window: map<string, Value>, primary: Value, name: string): (r: Option<Value>)
    ensures r.Some? <==> name in {"Button", "Card", "Input", "Modal", "Table"}
    ensures r.Some? ==> r.value.Element?
  {
    if name == "Button" then Some(ButtonExample(window, primary))
    else if name == "Card" then Some(CardExample(window, primary))
    else if name == "Input" then Some(InputExample(window, primary))
    else if name == "Modal" then Some(ModalExample(window, primary))
    else if name == "Table" then Some(TableExample(window, primary))
    else None
  }

  /** `renderPreview(name)`. */
  function RenderPreview(window: map<string, Value>, primary: Value, name: string): Value {
    match RoleExample(window, primary, name)
    case Some(element) =>
      if Truthy(element) then element
      else if IsFunction(primary) then CreateElement(Component(primary), [], [])
      else RenderMissing(name)
    case None =>
      if IsFunction(primary) then CreateElement(Component(primary), [], [])
      else RenderMissing(name)
  }

  /**
   * A role with an example always renders that example (examples are never
   * falsy); any other name renders the primary component with no props when
   * it is a function, and the placeholder naming it otherwise.
   */
  lemma RenderPreviewDispatch(window: map<string, Value>, primary: Value, name: string)
    ensures RoleExample(window, primary, name).Some? ==>
      RenderPreview(window, primary, name) == RoleExample(window, primary, name).value
    ensures RoleExample(window, primary, name).None? && IsFunction(primary) ==>
      var r := RenderPreview(window, primary, name);
      r.kind == Component(primary) && ChildList(r) == [] && r.props == []
    ensures RoleExample(window, primary, name).None? && !IsFunction(primary) ==>
      RenderPreview(window, primary, name) == RenderMissing(name)
  {
    var example := RoleExample(window, primary, name);
    if example.Some? {
      assert Truthy(example.value);
    }
    if RoleExample(window, primary, name).None? && IsFunction(primary) {
      assert CreateElement(Component(primary), [], []).props == [];
    }
  }

  // ===========================================================================
  // The whole script
  // ===========================================================================

  /** The window once the icons, the helpers and the exports are in place. */
  function PreparedWindow(code: string, initialWindow: map<string, Value>, scope: map<string, Value>): map<string, Value> {
    var withIcons := WithIcons(initialWindow, ExportNames.IconNames(code));
    var withHelpers := withIcons["cn" := Fn("cn")]["cva" := Fn("cva")]
      ["Slot" := ForwardRef(SlotComponent)]
      ["DialogPrimitive" := Coalesce(W(withIcons, "DialogPrimitive"), DialogFallback)];
    AttachAll(withHelpers, scope, ExportNames.ExportedNames(code))
  }

  /**
   * What the sandbox renders for the component `name` whose source is
   * `code`, given the page's initial globals and the script's declarations.
   */
  function PreviewOf(code: string, name: string, initialWindow: map<string, Value>, scope: map<string, Value>): Value {
    var prepared := PreparedWindow(code, initialWindow, scope);
    var ref := Resolve(scope, prepared, name);
    var window := if ref != Undefined then prepared[name := ref] else prepared;
    var exported := ExportNames.ExportedNames(code);
    var names := if ref != Undefined && name !in exported then exported + [name] else exported;
    RenderPreview(window, W(window, PrimaryExportName(name, names)), name)
  }

  /** Runs the preview script for one component, step by step, on a fresh sandbox. */
  method RunSandbox(code: string, name: string, initialWindow: map<string, Value>, scope: map<string, Value>)
    returns (element: Value)
    ensures element == PreviewOf(code, name, initialWindow, scope)
  {
    var sandbox := new Sandbox(initialWindow, ExportNames.ExportedNames(code));
    sandbox.RegisterIcons(ExportNames.IconNames(code));
    sandbox.InstallHelpers();
    sandbox.AttachExports(scope);
    sandbox.AttachComponent(name, scope);
    var primary := W(sandbox.window, PrimaryExportName(name, sandbox.exportedNames));
    element := RenderPreview(sandbox.window, primary, name);
  }

  /**
   * A component the code defines becomes the primary export: when its name
   * has no role example and it is a function, the preview is that component
   * rendered with no props.
   */
  lemma DefinedComponentIsPreviewed(code: string, name: string, initialWindow: map<string, Value>, scope: map<string, Value>)
    requires name in scope && scope[name].Fn?
    requires name !in {"Button", "Card", "Input", "Modal", "Table"}
    ensures var r := PreviewOf(code, name, initialWindow, scope);
      r.Element? && r.kind == Component(scope[name]) && ChildList(r) == []
  {
    var prepared := PreparedWindow(code, initialWindow, scope);
    var window := prepared[name := scope[name]];
    var exported := ExportNames.ExportedNames(code);
    var names := if name !in exported then exported + [name] else exported;
    assert name in names;
    PrimaryExportChoice(name, names);
    assert W(window, PrimaryExportName(name, names)) == scope[name];
    RenderPreviewDispatch(window, scope[name], name);
  }

  /**
   * When neither the script's scope nor the prepared window defines the
   * component, no export is component-like and the name has no role
   * example, the preview is the placeholder naming it.
   */
  lemma UndefinedComponentIsMissing(code: string, name: string, initialWindow: map<string, Value>, scope: map<string, Value>)
    requires name !in scope && W(PreparedWindow(code, initialWindow, scope), name) == Undefined
    requires forall i :: 0 <= i < |ExportNames.ExportedNames(code)| ==> !ComponentLike(ExportNames.ExportedNames(code)[i])
    requires name !in {"Button", "Card", "Input", "Modal", "Table"}
    ensures PreviewOf(code, name, initialWindow, scope) == RenderMissing(name)
  {
    var prepared := PreparedWindow(code, initialWindow, scope);
    var exported := ExportNames.ExportedNames(code);
    PrimaryExportChoice(name, exported);
    assert PrimaryExportName(name, exported) == name;
    RenderPreviewDispatch(prepared, Undefined, name);
  }
}
