# vite-plugin-antdv-no-cssinjs, modelled in Dafny

The plugin pre-renders the styles of ant-design-vue components once, when the
plugin is created. It normalises fractional pixel values to even integers,
caches the style text on disk under a hash of the selected components and
the theme, and delivers it to the page: inline, as a linked asset, as a
file, or as a virtual module. It can also replace some library modules
(`notification`, `message`, the CSS-in-JS style hook) by inert stand-ins.

The project has four files and five modules:

- `Wrappers` (wrappers.dfy) holds `Option`.
- `PxValues` (px_values.dfy) models `toNearestEven` and `fixPxValues` of
  src/components.ts.
  - Numbers are exact rationals (`real`). `Math.round` is `floor(x + 1/2)`.
    JavaScript's `%` is written out: the remainder takes the sign of the
    dividend.
  - The global replace of `/(-?\d+\.\d+)px/g` is a left-to-right character
    scanner. It is proved to be the one decomposition of the input into
    copied characters and leftmost, non-overlapping matches
    (`IsReplaceScan`).
  - A decomposition is a `Chain`: each segment is allowed (by a rule
    `leads`) at the position where the previous one ended, and the last one
    ends at the end of the input. The facts about chains are proved for any
    rule, and `Leads` is the rule of the global replace.
  - `PxValuesExamples` (also in px_values.dfy) works through concrete inputs.
- `Components` (components.dfy) models `getAntdNode` and `getAntdStyle`.
  - A node is the description of the `h(type, props, slots)` call that
    builds it.
  - The style extraction engine is a function parameter (`Extractor`) from
    the tree it is asked to render to the text it returns.
  - The caller's theme object is a `class`, because `getAntdStyle` writes
    its `hashed` field in place. `Object.assign` copies the config shallowly.
- `Plugin` (plugin.dfy) models `vitePluginAntdvNoCssinjs` of src/index.ts.
  - The option defaulting and the cache block are a pure specification,
    `InitSpec`. The imperative `InitCache` and the constructor of the
    `AntdvNoCssinjs` class are proved against it.
  - The filesystem is a `FileSystem` object holding a map from resolved
    path to text.
  - `process.cwd()`, `path.resolve`, `path.posix.join` and the SHA-256
    digest of the JSON encoding are functions of a `Host` value.
  - The hooks `resolveId`, `load`, `transformIndexHtml` and `generateBundle`
    are functions of the plugin's state. `configResolved` is a method.

Two consequences of the code that a reader might not expect:

- Only numbers with a decimal point are rewritten, so `margin: 3px` stays
  `3px`.
- An unknown component name is not rejected. It falls through to the
  default node.

Three behaviours of the code are worth knowing:

- A child-only component is passed to its parent as a `default` prop (the
  two-argument `h(Parent, { default })`), not as a slot.
  `Props.defaultProp` keeps it apart from a slot.
- Creating the plugin mutates the caller's theme object (`hashed = false`)
  on a cache miss. If the same options object is used to create the plugin
  again, the theme now serialises differently and is hashed to a different
  key, unless its `hashed` was already `false`, in which case the write
  changes nothing and the second creation hits the cache. `SecondInitHits`
  is stated for the same theme value, which is what a fresh options object
  gives.
- `load` chooses between the ES and the CommonJS style-hook stand-in by
  testing whether the id contains `es/`. Every id below a `node_modules`
  directory contains `es/` (the directory name ends in it), so an
  installed package always gets the ES stand-in, even for its `lib` build
  (`NodeModulesGetEsStub`).

## Model

| member | source | states |
|---|---|---|
| PxValues.JsRound | src/components.ts:83 | `Math.round`: the result lies in (x - 1/2, x + 1/2], so it is the nearest integer and a tie goes upwards |
| PxValues.JsRemainderTwo | src/components.ts:84 | JavaScript `% 2` lies in [-1, 1], is zero exactly for even numbers and takes the sign of the dividend |
| PxValues.ToNearestEven | src/components.ts:82-85 | the result is even; it is the rounded value when that is even, and the rounded value plus one otherwise, negatives included |
| PxValues.NearestEvenBounds | src/components.ts:82-85 | the even result lies in (x - 1/2, x + 3/2] |
| PxValues.FractionValue | src/components.ts:89 | the digits after the point are worth at least 0 and less than 1 |
| PxValues.ParseFloat | src/components.ts:89 | `Number.parseFloat` of a match: its magnitude lies between the whole part and the whole part plus one, with the sign of the match |
| PxValues.NatToString | src/components.ts:91 | the decimal text of a natural number is a non-empty run of digits that reads back to the number, with no leading zero except for 0 itself |
| PxValues.IntToString | src/components.ts:91 | the printed integer is not empty and starts with a minus exactly when it is negative |
| PxValues.IntToStringRoundTrip | src/components.ts:91 | the printed integer is a minus exactly for negatives, then digits without a leading zero (0 prints as `0`, never `-0`), and it parses back to the integer |
| PxValues.Replacement | src/components.ts:88-92 | the replacement text ends in `px` and starts with a minus exactly when the even value is negative |
| PxValues.TokenText | src/components.ts:88 | the length of a matched token's text is the sum of its parts |
| PxValues.SpellsAtSlice | src/components.ts:88 | a text is spelled at a position exactly when the slice of the input there equals it |
| PxValues.SpellsAtConcat | src/components.ts:88 | spelling a concatenation is spelling its two parts one after the other |
| PxValues.TokenParts | src/components.ts:88 | a match spells `-?`, digits, `.`, digits and `px`, one after the other, and nothing else |
| PxValues.DigitRun | src/components.ts:88 | the run of `\d+` measured at a position stays inside the input |
| PxValues.DigitRunMaximal | src/components.ts:88 | `\d+` is greedy: the run is all digits and is followed by a non-digit or the end |
| PxValues.DigitRunIs | src/components.ts:88 | a run of digits followed by a non-digit is the run the scanner measures |
| PxValues.MatchAt | src/components.ts:88 | a match the scanner finds at a position lies inside the input |
| PxValues.MatchAtIs | src/components.ts:88 | the scanner finds token `t` at a position exactly when the sign, a longest digit run ending at `.`, and a longest digit run ending at `px` lie there |
| PxValues.ScannedMatches | src/components.ts:88 | what the scanner reads is a match of the pattern |
| PxValues.MatchesScanned | src/components.ts:88 | a match of the pattern is what the scanner reads: both of its digit runs are the longest ones, because `.` and `p` stop them |
| PxValues.MatchAtSound | src/components.ts:88 | a token the scanner finds at a position is a match of the pattern there |
| PxValues.MatchAtComplete | src/components.ts:88 | when the pattern matches at a position, the scanner finds a match there |
| PxValues.MatchIsFound | src/components.ts:88 | any match of the pattern at a position is exactly the token the scanner finds |
| PxValues.NoMatchNone | src/components.ts:88 | where the pattern matches nowhere, the scanner finds nothing |
| PxValues.Head | src/components.ts:88 | one step of the scanner stays inside the input |
| PxValues.ScanFrom | src/components.ts:88 | the scanner yields at most one segment per remaining character; what the segments are is stated by ScanIsReplaceScan and ReplaceScanUnique |
| PxValues.HeadLeads | src/components.ts:88 | each step of the scanner is allowed where it is taken: the match that starts there, or a copied character where none starts |
| PxValues.LeadsSpells | src/components.ts:88 | a segment allowed at a position spells the input there |
| PxValues.LeadsUnique | src/components.ts:88 | at most one segment is allowed at each position: matches do not overlap and a match is never skipped |
| PxValues.ChainCovers | src/components.ts:88 | when every allowed segment spells the input, a chain of allowed segments reads the whole rest of the input, in order |
| PxValues.ChainDeterministic | src/components.ts:88 | when at most one segment is allowed per position, two chains from the same position are equal |
| PxValues.ScanChain | src/components.ts:88 | the scanner's output is a chain for any rule that allows each of its steps |
| PxValues.ScanIsReplaceScan | src/components.ts:88 | the scanner's decomposition copies only positions where no match starts and replaces the leftmost match, resuming after it |
| PxValues.ReplaceScanUnique | src/components.ts:88 | a global-replace decomposition of the input is unique: it is the scanner's |
| PxValues.ReplaceScanCovers | src/components.ts:88 | a global-replace decomposition reads the whole rest of the input, in order |
| PxValues.FixPxValues | src/components.ts:87-93 | `fixPxValues` is the rendering of the scanner's decomposition; it carries no contract of its own, and FixPxIsGlobalReplace, FixPxNoMatch and ReplacementShape state what it does |
| PxValues.FixPxIsGlobalReplace | src/components.ts:87-93 | `fixPxValues` renders the one global-replace decomposition of its input, which spells the input exactly |
| PxValues.ReplacementShape | src/components.ts:88-92 | every replacement is an optional minus (present exactly for negative values), digits without a point and without a leading zero, and `px`, spelling the even value of the matched number |
| PxValues.CopiesRenderSources | src/components.ts:88 | segments that are all copied characters render as the text they were read from |
| PxValues.NoMatchUnchanged | src/components.ts:88 | a suffix where the scanner finds no match is copied unchanged |
| PxValues.FixPxNoMatch | src/components.ts:88 | a text where the pattern matches nowhere is returned unchanged |
| PxValuesExamples.WholeToken | src/components.ts:88-92 | a text that is one token is replaced by that token's replacement |
| PxValuesExamples.NineteenPointFour | src/components.ts:87-93 | `19.4px` becomes `20px` |
| PxValuesExamples.TwoPointFive | src/components.ts:87-93 | `2.5px` becomes `4px`: the tie rounds up to 3, and the odd 3 moves up to 4 |
| PxValuesExamples.MinusTwoPointFive | src/components.ts:87-93 | `-2.5px` becomes `-2px` |
| PxValuesExamples.MinusZeroPointFour | src/components.ts:87-93 | `-0.4px` becomes `0px`, without a minus sign |
| PxValuesExamples.MinusThreePointTwo | src/components.ts:82-85 | `-3.2px` becomes `-2px`: the odd negative -3 moves up |
| PxValuesExamples.IntegerPixelsKept | src/components.ts:88 | `margin: 3px` is unchanged |
| PxValuesExamples.OtherUnitsKept | src/components.ts:88 | `1.5em` is unchanged |
| Components.NodeFor | src/components.ts:29-59 | the node for a name, rule by rule: Dropdown gets an empty menu and a div slot; a picker alias is a DatePicker with its mode and no slot; a child-only name is wrapped in its parent, without key or slot; QRCode and Segmented get `value: ''`; everything else gets a key and a div slot |
| Components.RulesAreDisjoint | src/components.ts:7-25 | no name falls under two of the dispatch rules |
| Components.GetAntdNode | src/components.ts:27-28 | one node per name, in the order of the names |
| Components.StyleRequest | src/components.ts:68-79 | the tree handed to the engine has `hashed` false, the caller's tokens (none when there is no theme) and other config fields, and either the selected nodes or the engine's full list |
| Components.AntdStyle | src/components.ts:63-66 | the result is `false` exactly when the selection is `false` |
| Components.StyleIgnoresHashed | src/components.ts:72 | the style text does not depend on the caller's `hashed` value |
| Components.GetAntdStyle | src/components.ts:63-80 | returns the engine's output for the request above; with `false` it changes nothing, otherwise it sets the caller's theme to `hashed = false` and keeps its tokens |
| Plugin.ResolveOptions | src/index.ts:84-92 | the defaults: `no-file`, `./public` resolved against the working directory, `components` true, no ignored components, an empty config; `offCssInJs` and `cssFileName` pass through |
| Plugin.Prefix8 | src/index.ts:100 | the key is the first eight characters of the digest, or the whole digest when it is shorter |
| Plugin.CacheKey | src/index.ts:97-100 | the cache key is a prefix of at most eight characters of the digest of `{ components, theme }` |
| Plugin.CachePath | src/index.ts:105 | the cache file is `<key>.css` in `node_modules/.cache/antdv-no-cssinjs` below the working directory; it is a definition over the host's `path.resolve` and carries no contract |
| Plugin.InitSpec | src/index.ts:94-120 | creation never removes a file and writes none unless it extracts; it extracts only when components are selected, and then the file name is set and not empty |
| Plugin.NoComponentsNoWork | src/index.ts:94-96 | with `components: false` the text stays empty, no file is read or written, nothing is extracted, and the file name is not defaulted |
| Plugin.FileNameDefault | src/index.ts:97-104 | the file name becomes `<key>.css` exactly when the caller gave none or an empty one |
| Plugin.CacheHit | src/index.ts:105-108 | on a hit the text is the cached file, the engine is not called, and nothing is written |
| Plugin.CacheMiss | src/index.ts:109-118 | on a miss the text is the normalised engine output; exactly that text is stored under the key; the copy in `cssFilePath` is written only in `file` mode; every other file is kept |
| Plugin.ExtraCopyOnlyOnMissInFileMode | src/index.ts:114-118 | a file other than the cache entry that is added or changed is the `file`-mode copy written on a miss |
| Plugin.SecondInitHits | src/index.ts:105-113 | a second creation from the same inputs, over the files the first left, hits the cache and yields the same text and file name, whatever the engine |
| Plugin.InitCache | src/index.ts:94-120 | the cache block, step by step, computes the file name, text and files of `InitSpec` and sets `hashed = false` on the theme only when it extracts |
| Plugin.AntdvNoCssinjs.constructor | src/index.ts:83-123 | creation defaults the options and runs the cache block as `InitSpec` describes, with the assets path `assets` and an empty base path |
| Plugin.AntdvNoCssinjs.ConfigResolved | src/index.ts:155-158 | records the build's assets directory and base path |
| Plugin.ResolveId | src/index.ts:174-178 | only the virtual style module id is claimed, and it is returned as it is |
| Plugin.FirstMatch | src/index.ts:180-198 | the text of the first matching stand-in, or nothing exactly when no stand-in matches |
| Plugin.FirstMatchAppend | src/index.ts:180-198 | consulting two tables in turn is consulting their concatenation |
| Plugin.AntdvNoCssinjs.StubRules | src/index.ts:180-198 | the table `load` consults starts with the virtual style module |
| Plugin.AntdvNoCssinjs.StubRulesOrder | src/index.ts:180-198 | the table in order: the virtual style module, then the notification rule and the message rule when those components are ignored, and last, with `offCssInJs`, the ES rule before the CommonJS rule; nothing else |
| Plugin.AntdvNoCssinjs.Load | src/index.ts:180-198 | the precedence: the virtual id gives the style text; then the notification stand-in; then the message stand-in; then, with `offCssInJs`, the style-hook stand-in (ES when the id contains `es/`, otherwise CommonJS); otherwise nothing |
| Plugin.NodeModulesContainsEs | src/index.ts:193 | every id that contains `node_modules/` contains `es/` |
| Plugin.AntdvNoCssinjs.NodeModulesGetEsStub | src/index.ts:192-196 | with `offCssInJs`, a style-hook id below `node_modules` that no earlier stand-in claims gets the ES stand-in |
| Plugin.AntdvNoCssinjs.TransformIndexHtml | src/index.ts:200-224 | the hook returns the page with one tag exactly in `inline-style` mode, or in `style-file` mode with a file name, and leaves the page alone otherwise |
| Plugin.AntdvNoCssinjs.GenerateBundle | src/index.ts:226-234 | at most one asset is emitted, exactly in `style-file` mode with a file name, and it holds the style text |
| Plugin.AntdvNoCssinjs.DeliveryByMode | src/index.ts:200-234 | `inline-style` adds one style tag holding the text and emits nothing; `style-file` with a name adds one link to `base/assets/name` and emits that asset with the text; every other mode does neither; the virtual module always serves the text |

## Left out

- The SHA-256 digest and the `JSON.stringify` encoding of `{ components, theme }` are a function supplied by the host. No property of the digest is assumed.
- `parseFloat` and number printing are exact decimal arithmetic here. IEEE-754 effects are not modelled: decimals too long for a double, magnitudes beyond 2^53, and the exponent notation JavaScript prints from 1e21 up.
- The filesystem is a map from resolved path to text. `path.resolve`, `path.posix.join` and `process.cwd()` are host functions. `mkdirSync`, partial writes and I/O errors are not modelled.
- The `config` hook, which registers an esbuild plugin with path-regex filters, is build-host plumbing and is not modelled.
- The `configureServer` middleware that serves the style file during development is HTTP I/O and is not modelled.
- The component registry of ant-design-vue, Vue's `h` and `extractStyle` are not modelled. Nodes are descriptions, and the engine is an arbitrary function.
- Components.NodeFor: JavaScript's `in` also finds names inherited from `Object.prototype` (such as `toString`) in the two tables; the model's maps do not.
- Plugin.InitCache: the extraction engine is a total function here. In the code, `extractStyle` can throw after `hashed = false` has already been written into the caller's theme; creation then stops before any cache file is written. The model does not capture that failure, and `InitCache` and the constructor always complete.
- Plugin.ResolveOptions: an `antdvConfig` whose `theme` is explicitly `undefined` is not distinguished from one without a theme. The code would throw when it writes `hashed`.
- Plugin.ResolveOptions: `cssFileType` is one of the four documented values. Any other string behaves like `no-file` in the hooks and is not represented.
- Plugin.AntdvNoCssinjs.TransformIndexHtml: the returned tag objects are reduced to their kind and the attributes the code sets.
