/**
 * The node selector and the style request of src/components.ts.
 *
 * The component library, Vue's `h` and the style extraction engine are not
 * modelled: a rendered node is the description `VNode` of the `h` call that
 * builds it, and the extraction engine is a function `Extractor` from the
 * description of the tree it is asked to render to the style text it returns.
 */
module Components {
  import opened Wrappers

  /** `pickerMap`: date-picker aliases and the picker mode each one stands for. */
  const PickerModes: map<string, string> :=
    map["MonthPicker" := "month", "WeekPicker" := "week", "QuarterPicker" := "quarter"]

  /** `compChildNameMap`: components that only render inside a parent, and that parent. */
  const ChildParents: map<string, string> := map[
    "MenuDivider" := "Menu", "MenuItem" := "Menu", "MenuItemGroup" := "Menu", "SubMenu" := "Menu",
    "TableColumn" := "Table", "TableColumnGroup" := "Table", "TableSummary" := "Table",
    "TableSummaryRow" := "Table", "TableSummaryCell" := "Table",
    "TabPane" := "Tabs", "TimelineItem" := "Timeline"]

  /** Components that are given an empty `value` so that they render their full style. */
  const SeededNames: set<string> := {"QRCode", "Segmented"}

  /** The first argument of `h`: a component of the library, by its export name, or an HTML tag. */
  datatype NodeType = Antd(name: string) | Element(tag: string)

  datatype Menu = Menu(items: seq<string>)

  /**
   * The props object given to `h`; a field the call does not set is None.
   * `defaultProp` is a `default` render function passed AS A PROP (the
   * two-argument form `h(Parent, { default: ... })`), kept apart from a slot.
   */
  datatype Props = Props(
    key: Option<string>,
    menu: Option<Menu>,
    picker: Option<string>,
    value: Option<string>,
    defaultProp: Option<VNode>)

  /** `h(nodeType, props, { default: () => slot })`; `slot` is None when no slots are given. */
  datatype VNode = VNode(nodeType: NodeType, props: Props, slot: Option<VNode>)

  const NoProps := Props(None, None, None, None, None)

  /** `h('div')` */
  const Div := VNode(Element("div"), NoProps, None)

  function KeyProps(name: string): Props
  {
    NoProps.(key := Some(name))
  }

  /** The node `getAntdNode` builds for one component name; the tests run in the source's order. */
  function NodeFor(name: string): (n: VNode)
    ensures n.nodeType == Antd(
      if name in PickerModes then "DatePicker"
      else if name in ChildParents then ChildParents[name]
      else name)
    ensures n.props.key.None? <==> name in ChildParents
    ensures n.props.key.Some? ==> n.props.key.value == name
    ensures n.props.menu == (if name == "Dropdown" then Some(Menu([])) else None)
    ensures n.props.picker == (if name in PickerModes then Some(PickerModes[name]) else None)
    ensures n.props.value == (if name in SeededNames then Some("") else None)
    ensures n.props.defaultProp ==
      (if name in ChildParents then Some(VNode(Antd(name), NoProps, None)) else None)
    ensures n.slot == (if name in PickerModes || name in ChildParents then None else Some(Div))
  {
    if name == "Dropdown" then
      VNode(Antd(name), KeyProps(name).(menu := Some(Menu([]))), Some(Div))
    else if name in PickerModes then
      VNode(Antd("DatePicker"), KeyProps(name).(picker := Some(PickerModes[name])), None)
    else if name in ChildParents then
      VNode(Antd(ChildParents[name]), NoProps.(defaultProp := Some(VNode(Antd(name), NoProps, None))), None)
    else if name == "QRCode" || name == "Segmented" then
      VNode(Antd(name), KeyProps(name).(value := Some("")), Some(Div))
    else
      VNode(Antd(name), KeyProps(name), Some(Div))
  }

  /** No name falls under two of the rules, so the order of the tests only fixes the reading. */
  lemma RulesAreDisjoint()
    ensures PickerModes.Keys !! ChildParents.Keys
    ensures "Dropdown" !in PickerModes && "Dropdown" !in ChildParents && "Dropdown" !in SeededNames
    ensures SeededNames !! PickerModes.Keys && SeededNames !! ChildParents.Keys
  {
  }

  /** `getAntdNode(names)`: one node per name, in the order of the names. */
  function GetAntdNode(names: seq<string>): (nodes: seq<VNode>)
    ensures |nodes| == |names|
    ensures forall i :: 0 <= i < |names| ==> nodes[i] == NodeFor(names[i])
  {
    if names == [] then [] else [NodeFor(names[0])] + GetAntdNode(names[1..])
  }

  // ------------------------------------------------------------ the style

  /** The `components` option: `false`, `true` (every component), or a list of names. */
  datatype Selection = Flag(enabled: bool) | Names(names: seq<string>)

  /** The value of a theme object: its design tokens and its `hashed` field. */
  datatype ThemeValue = ThemeValue(tokens: map<string, string>, hashed: Option<bool>)

  /** The `theme` object of an `antdvConfig`; `getAntdStyle` writes its `hashed` field in place. */
  class Theme {
    var tokens: map<string, string>
    var hashed: Option<bool>

    constructor (tokens: map<string, string>, hashed: Option<bool>)
      ensures this.tokens == tokens && this.hashed == hashed
    {
      this.tokens := tokens;
      this.hashed := hashed;
    }

    function Value(): ThemeValue
      reads this
    {
      ThemeValue(tokens, hashed)
    }
  }

  /** `antdvConfig`: its `theme` object, if it has one, and every other field as a value. */
  datatype AntdvConfig = AntdvConfig(theme: Option<Theme>, rest: map<string, string>)

  function ThemeObjects(config: Option<AntdvConfig>): set<Theme>
  {
    if config.Some? && config.value.theme.Some? then {config.value.theme.value} else {}
  }

  function ThemeValueOf(config: Option<AntdvConfig>): Option<ThemeValue>
    reads ThemeObjects(config)
  {
    if config.Some? && config.value.theme.Some? then Some(config.value.theme.value.Value()) else None
  }

  function RestOf(config: Option<AntdvConfig>): map<string, string>
  {
    if config.Some? then config.value.rest else map[]
  }

  /** What the root provider renders: the selected nodes, or the engine's own list of every node. */
  datatype Children = Nodes(nodes: seq<VNode>) | AllNodes

  datatype ProviderProps = ProviderProps(theme: ThemeValue, rest: map<string, string>)

  /** `h(ConfigProvider, configProps, { default: () => children })` */
  datatype RenderTree = ConfigProvider(props: ProviderProps, children: Children)

  /** The style extraction engine: the style text of every rule the rendered tree touches. */
  type Extractor = RenderTree -> string

  /**
   * The tree handed to the engine: the caller's config with a theme (a fresh
   * empty one when the caller gave none) whose `hashed` is false.
   */
  function StyleRequest(selection: Selection, theme: Option<ThemeValue>, rest: map<string, string>): (tree: RenderTree)
    requires selection != Flag(false)
    ensures tree.props.theme.hashed == Some(false)
    ensures tree.props.theme.tokens == if theme.Some? then theme.value.tokens else map[]
    ensures tree.props.rest == rest
    ensures selection.Names? ==> tree.children == Nodes(GetAntdNode(selection.names))
    ensures selection == Flag(true) ==> tree.children == AllNodes
  {
    var tokens := if theme.Some? then theme.value.tokens else map[];
    ConfigProvider(
      ProviderProps(ThemeValue(tokens, Some(false)), rest),
      if selection.Names? then Nodes(GetAntdNode(selection.names)) else AllNodes)
  }

  /** The value `getAntdStyle` returns; None stands for `false`. */
  function AntdStyle(selection: Selection, theme: Option<ThemeValue>, rest: map<string, string>, extract: Extractor): (r: Option<string>)
    ensures r.None? <==> selection == Flag(false)
  {
    if selection == Flag(false) then None else Some(extract(StyleRequest(selection, theme, rest)))
  }

  /** The style text of a selection depends on the theme's tokens, never on its `hashed` flag. */
  lemma StyleIgnoresHashed(selection: Selection, tokens: map<string, string>, h1: Option<bool>, h2: Option<bool>,
                           rest: map<string, string>, extract: Extractor)
    ensures AntdStyle(selection, Some(ThemeValue(tokens, h1)), rest, extract)
         == AntdStyle(selection, Some(ThemeValue(tokens, h2)), rest, extract)
  {
  }

  /**
   * `getAntdStyle(antdComponents, antdvConfig)`. `Object.assign` copies the
   * config shallowly, so the caller's own theme object gets `hashed = false`.
   */
  method GetAntdStyle(selection: Selection, antdvConfig: Option<AntdvConfig>, extract: Extractor)
    returns (r: Option<string>)
    modifies ThemeObjects(antdvConfig)
    ensures r == AntdStyle(selection, old(ThemeValueOf(antdvConfig)), RestOf(antdvConfig), extract)
    ensures selection == Flag(false) ==> unchanged(ThemeObjects(antdvConfig))
    ensures selection != Flag(false) ==> forall t <- ThemeObjects(antdvConfig) ::
      t.hashed == Some(false) && t.tokens == old(t.tokens)
  {
    if selection == Flag(false) {
      return None;
    }
    var theme: ThemeValue;
    if antdvConfig.Some? && antdvConfig.value.theme.Some? {
      var t := antdvConfig.value.theme.value;
      t.hashed := Some(false);
      theme := t.Value();
    } else {
      theme := ThemeValue(map[], Some(false));
    }
    var children := if selection.Names? then Nodes(GetAntdNode(selection.names)) else AllNodes;
    r := Some(extract(ConfigProvider(ProviderProps(theme, RestOf(antdvConfig)), children)));
  }
}
