/**
 * The plugin of src/index.ts: option defaulting, the cache that is read or
 * filled when the plugin is created, and the hooks that deliver the style
 * text (`resolveId`, `load`, `transformIndexHtml`, `generateBundle`,
 * `configResolved`).
 *
 * The filesystem is a map from resolved path to file text; path resolution,
 * the working directory and the SHA-256 digest of the JSON-encoded cache
 * inputs are functions supplied by the host.
 */
module Plugin {
  import opened Wrappers
  import opened Components
  import PxValues

  // --------------------------------------------------------------- options

  /** `CSSFileTypes`: how the style text reaches the page. */
  datatype CssFileType = InlineStyle | StyleFile | CssFile | NoFile

  /** The library modules `ignoreComponents` can replace by inert stand-ins. */
  datatype Ignorable = Notification | Message

  /** The options object as the caller passes it; None is an absent (undefined) field. */
  datatype Options = Options(
    offCssInJs: bool,
    cssFileType: Option<CssFileType>,
    cssFilePath: Option<string>,
    cssFileName: Option<string>,
    components: Option<Selection>,
    ignoreComponents: Option<seq<Ignorable>>,
    antdvConfig: Option<AntdvConfig>)

  /** The plugin's `config` object after defaulting. */
  datatype Config = Config(
    offCssInJs: bool,
    cssFileType: CssFileType,
    cssFilePath: string,
    cssFileName: Option<string>,
    components: Selection,
    ignoreComponents: seq<Ignorable>,
    antdvConfig: AntdvConfig)

  /** What the digest is taken over: `{ components, theme }`. */
  datatype KeyInput = KeyInput(components: Selection, theme: Option<ThemeValue>)

  /**
   * The host: `process.cwd()`, `path.resolve` of two paths, `path.posix.join`,
   * and the hex SHA-256 digest of the JSON encoding of the cache inputs.
   */
  datatype Host = Host(
    cwd: string,
    resolve: (string, string) -> string,
    posixJoin: seq<string> -> string,
    digest: KeyInput -> string)

  /** JavaScript truthiness of an optional string: present and not empty. */
  predicate Truthy(s: Option<string>)
  {
    s.Some? && s.value != ""
  }

  const DefaultCssFilePath := "./public"

  /** The option defaulting at the top of `vitePluginAntdvNoCssinjs`. */
  function ResolveOptions(options: Options, host: Host): (c: Config)
    ensures c.offCssInJs == options.offCssInJs
    ensures c.cssFileName == options.cssFileName
    ensures c.cssFileType == if options.cssFileType.Some? then options.cssFileType.value else NoFile
    ensures c.components == if options.components.Some? then options.components.value else Flag(true)
    ensures c.ignoreComponents == if options.ignoreComponents.Some? then options.ignoreComponents.value else []
    ensures c.antdvConfig == if options.antdvConfig.Some? then options.antdvConfig.value else AntdvConfig(None, map[])
    ensures c.cssFilePath == host.resolve(host.cwd,
      if Truthy(options.cssFilePath) then options.cssFilePath.value else DefaultCssFilePath)
  {
    Config(
      options.offCssInJs,
      if options.cssFileType.Some? then options.cssFileType.value else NoFile,
      host.resolve(host.cwd, if Truthy(options.cssFilePath) then options.cssFilePath.value else DefaultCssFilePath),
      options.cssFileName,
      if options.components.Some? then options.components.value else Flag(true),
      if options.ignoreComponents.Some? then options.ignoreComponents.value else [],
      if options.antdvConfig.Some? then options.antdvConfig.value else AntdvConfig(None, map[]))
  }

  // ----------------------------------------------------------------- cache

  const CacheDir := "node_modules/.cache/antdv-no-cssinjs"

  /** `.slice(0, 8)`: the first eight characters, or the whole string when it is shorter. */
  function Prefix8(hex: string): (key: string)
    ensures |key| <= 8 && key <= hex
    ensures |hex| >= 8 ==> |key| == 8
    ensures |hex| < 8 ==> key == hex
  {
    if |hex| <= 8 then hex else hex[..8]
  }

  /** The cache key: the start of the digest of `{ components, theme }`. */
  function CacheKey(host: Host, components: Selection, theme: Option<ThemeValue>): (key: string)
    ensures |key| <= 8 && key <= host.digest(KeyInput(components, theme))
  {
    Prefix8(host.digest(KeyInput(components, theme)))
  }

  /** Where the style text for `key` is cached, below the working directory. */
  function CachePath(host: Host, key: string): string
  {
    host.resolve(host.resolve(host.cwd, CacheDir), key + ".css")
  }

  /** The state the creation of the plugin leaves behind. */
  datatype InitOutcome = InitOutcome(
    cssText: string,
    cssFileName: Option<string>,
    files: map<string, string>,
    extracted: bool)

  /**
   * The cache block of `vitePluginAntdvNoCssinjs`: from the defaulted config,
   * the value of its theme, the files and the extraction engine, the style
   * text, the (possibly defaulted) file name, the files afterwards and whether
   * the engine was called.
   */
  function InitSpec(config: Config, theme: Option<ThemeValue>, host: Host,
                    files: map<string, string>, extract: Extractor): (o: InitOutcome)
    ensures files.Keys <= o.files.Keys
    ensures !o.extracted ==> o.files == files
    ensures o.extracted ==> config.components != Flag(false)
    ensures config.components != Flag(false) ==> Truthy(o.cssFileName)
  {
    if config.components == Flag(false) then
      InitOutcome("", config.cssFileName, files, false)
    else
      var key := CacheKey(host, config.components, theme);
      var name := if Truthy(config.cssFileName) then config.cssFileName.value else key + ".css";
      var cachePath := CachePath(host, key);
      if cachePath in files then
        InitOutcome(files[cachePath], Some(name), files, false)
      else
        var style := AntdStyle(config.components, theme, config.antdvConfig.rest, extract);
        var text := PxValues.FixPxValues(style.value);
        var cached := files[cachePath := text];
        var written := if config.cssFileType == CssFile then cached[host.resolve(config.cssFilePath, name) := text] else cached;
        InitOutcome(text, Some(name), written, true)
  }

  /**
   * The cache block of `vitePluginAntdvNoCssinjs`, run on the defaulted
   * config: returns the file name the config ends up with and the style text.
   */
  method InitCache(config: Config, host: Host, fs: FileSystem, extract: Extractor)
    returns (cssFileName: Option<string>, cssText: string)
    modifies fs, ThemeObjects(Some(config.antdvConfig))
    ensures var o := InitSpec(config, old(ThemeValueOf(Some(config.antdvConfig))), host, old(fs.files), extract);
      cssFileName == o.cssFileName && cssText == o.cssText && fs.files == o.files
    ensures !InitSpec(config, old(ThemeValueOf(Some(config.antdvConfig))), host, old(fs.files), extract).extracted ==>
      unchanged(ThemeObjects(Some(config.antdvConfig)))
    ensures InitSpec(config, old(ThemeValueOf(Some(config.antdvConfig))), host, old(fs.files), extract).extracted ==>
      forall t <- ThemeObjects(Some(config.antdvConfig)) :: t.hashed == Some(false) && t.tokens == old(t.tokens)
  {
    cssFileName := config.cssFileName;
    cssText := "";
    if config.components == Flag(false) {
      return;
    }
    var key := CacheKey(host, config.components, ThemeValueOf(Some(config.antdvConfig)));
    if !Truthy(cssFileName) {
      cssFileName := Some(key + ".css");
    }
    var cachePath := CachePath(host, key);
    if cachePath in fs.files {
      cssText := fs.files[cachePath];
    } else {
      var style := GetAntdStyle(config.components, Some(config.antdvConfig), extract);
      cssText := PxValues.FixPxValues(style.value);
      fs.files := fs.files[cachePath := cssText];
      if config.cssFileType == CssFile {
        fs.files := fs.files[host.resolve(config.cssFilePath, cssFileName.value) := cssText];
      }
    }
  }

  /** The creation of the plugin from the options as given. */
  function Created(options: Options, host: Host, theme: Option<ThemeValue>,
                   files: map<string, string>, extract: Extractor): InitOutcome
  {
    InitSpec(ResolveOptions(options, host), theme, host, files, extract)
  }

  /** With `components: false` nothing is read, extracted or written and the file name is left alone. */
  lemma NoComponentsNoWork(config: Config, theme: Option<ThemeValue>, host: Host,
                           files: map<string, string>, extract: Extractor)
    requires config.components == Flag(false)
    ensures var o := InitSpec(config, theme, host, files, extract);
      o.cssText == "" && o.files == files && !o.extracted && o.cssFileName == config.cssFileName
  {
  }

  /** The file name is `<key>.css` exactly when the caller gave none (or an empty one). */
  lemma FileNameDefault(config: Config, theme: Option<ThemeValue>, host: Host,
                        files: map<string, string>, extract: Extractor)
    requires config.components != Flag(false)
    ensures var o := InitSpec(config, theme, host, files, extract);
      o.cssFileName == Some(if Truthy(config.cssFileName) then config.cssFileName.value
                            else CacheKey(host, config.components, theme) + ".css")
  {
  }

  /** A cache hit: the cached text is used as it is, the engine is not called, nothing is written. */
  lemma CacheHit(config: Config, theme: Option<ThemeValue>, host: Host,
                 files: map<string, string>, extract: Extractor)
    requires config.components != Flag(false)
    requires CachePath(host, CacheKey(host, config.components, theme)) in files
    ensures var o := InitSpec(config, theme, host, files, extract);
      && o.cssText == files[CachePath(host, CacheKey(host, config.components, theme))]
      && !o.extracted && o.files == files
  {
  }

  /**
   * A cache miss: the text is the normalised output of the engine for the
   * theme with `hashed` off, exactly that text is stored under the key, and the
   * only other file written is the copy in `cssFilePath`, in `file` mode only.
   */
  lemma CacheMiss(config: Config, theme: Option<ThemeValue>, host: Host,
                  files: map<string, string>, extract: Extractor)
    requires config.components != Flag(false)
    requires CachePath(host, CacheKey(host, config.components, theme)) !in files
    ensures var o := InitSpec(config, theme, host, files, extract);
      var cachePath := CachePath(host, CacheKey(host, config.components, theme));
      && o.extracted
      && o.cssText == PxValues.FixPxValues(extract(StyleRequest(config.components, theme, config.antdvConfig.rest)))
      && o.files.Keys == files.Keys + {cachePath}
           + (if config.cssFileType == CssFile then {host.resolve(config.cssFilePath, o.cssFileName.value)} else {})
      && o.files[cachePath] == o.cssText
      && (config.cssFileType == CssFile ==> o.files[host.resolve(config.cssFilePath, o.cssFileName.value)] == o.cssText)
      && (forall p :: p in files && p != cachePath
            && (config.cssFileType != CssFile || p != host.resolve(config.cssFilePath, o.cssFileName.value))
            ==> o.files[p] == files[p])
  {
  }

  /** Files other than the cache entry change only on a miss in `file` mode, and only at the copy's path. */
  lemma {:induction false} ExtraCopyOnlyOnMissInFileMode(config: Config, theme: Option<ThemeValue>, host: Host,
                                     files: map<string, string>, extract: Extractor, p: string)
    requires config.components != Flag(false)
    requires p != CachePath(host, CacheKey(host, config.components, theme))
    requires var o := InitSpec(config, theme, host, files, extract);
      p in o.files && (p !in files || o.files[p] != files[p])
    ensures var o := InitSpec(config, theme, host, files, extract);
      && o.extracted && config.cssFileType == CssFile
      && p == host.resolve(config.cssFilePath, o.cssFileName.value)
  {
    var cachePath := CachePath(host, CacheKey(host, config.components, theme));
    if cachePath !in files {
      CacheMiss(config, theme, host, files, extract);
    }
  }

  /**
   * Creating the plugin a second time from the same inputs, over the files
   * the first creation left, hits the cache: same text, no engine call (with
   * whatever engine), no write.
   */
  lemma {:induction false} SecondInitHits(config: Config, theme: Option<ThemeValue>, host: Host,
                                          files: map<string, string>, extract: Extractor, extract': Extractor)
    requires config.components != Flag(false)
    ensures var first := InitSpec(config, theme, host, files, extract);
      var second := InitSpec(config, theme, host, first.files, extract');
      && second.cssText == first.cssText && !second.extracted && second.files == first.files
      && second.cssFileName == first.cssFileName
  {
    var first := InitSpec(config, theme, host, files, extract);
    var cachePath := CachePath(host, CacheKey(host, config.components, theme));
    if cachePath in files {
      CacheHit(config, theme, host, files, extract);
    } else {
      CacheMiss(config, theme, host, files, extract);
    }
    CacheHit(config, theme, host, first.files, extract');
  }

  // ------------------------------------------------------- module stand-ins

  const VirtualCssId := "virtual:antdv-no-cssinjs.css"

  const UseStyleFiles := [
    "ant-design-vue/lib/theme/util/genComponentStyleHook",
    "ant-design-vue/es/theme/util/genComponentStyleHook"]
  const NotificationFiles := ["ant-design-vue/es/notification", "ant-design-vue/lib/notification"]
  const MessageFiles := ["ant-design-vue/es/message", "ant-design-vue/lib/message"]

  /** The module texts of `ignoreComponentsCodeByKey`. */
  const NotificationStub := "export default { config() {} }"
  const MessageStub := "export default { config() {} }"
  const UseStyleEsStub :=
    "\n  export function genComponentStyleHook() { return () => [node => node, ''] }\n"
    + "  export default genComponentStyleHook;\n  "
  const UseStyleCjsStub :=
    "\n  function genComponentStyleHook() { return () => [node => node, ''] }\n"
    + "  Object.defineProperty(exports, \"__esModule\", {\n    value: true\n  });\n"
    + "  exports.default = genComponentStyleHook;\n  "

  /** `part` occurs in `s` at position `k`. */
  predicate OccursAt(s: string, part: string, k: nat)
  {
    k + |part| <= |s| && s[k..k + |part|] == part
  }

  /** `s.includes(part)` */
  predicate Contains(s: string, part: string)
  {
    exists k: nat :: k <= |s| && OccursAt(s, part, k)
  }

  /** Every id below a `node_modules` directory contains `es/`, because the directory name ends in it. */
  lemma NodeModulesContainsEs(id: string)
    requires Contains(id, "node_modules/")
    ensures Contains(id, "es/")
  {
    var k: nat :| k <= |id| && OccursAt(id, "node_modules/", k);
    assert id[k + 10..k + 13] == id[k..k + 13][10..13];
    assert OccursAt(id, "es/", k + 10);
  }

  /** `paths.some(file => id.includes(file))` */
  predicate ContainsAny(id: string, paths: seq<string>)
  {
    exists p :: p in paths && Contains(id, p)
  }

  /** `resolveId(id)`: only the virtual style module is claimed. */
  function ResolveId(id: string): (r: Option<string>)
    ensures r.Some? <==> id == VirtualCssId
    ensures r.Some? ==> r.value == id
  {
    if id == VirtualCssId then Some(id) else None
  }

  /** Which module ids a stand-in applies to. */
  datatype IdMatcher =
    | Exactly(id: string)
    | ContainsAnyOf(paths: seq<string>)
    | ContainsAnyOfAnd(paths: seq<string>, part: string)

  predicate Matches(m: IdMatcher, id: string)
  {
    match m
    case Exactly(x) => id == x
    case ContainsAnyOf(paths) => ContainsAny(id, paths)
    case ContainsAnyOfAnd(paths, part) => ContainsAny(id, paths) && Contains(id, part)
  }

  /** A module id matcher and the module text served for it. */
  datatype StubRule = StubRule(matcher: IdMatcher, source: string)

  /** The text of the first rule that matches, if any. */
  function FirstMatch(rules: seq<StubRule>, id: string): (r: Option<string>)
    ensures r.None? <==> forall i :: 0 <= i < |rules| ==> !Matches(rules[i].matcher, id)
    ensures r.Some? ==> exists i :: (0 <= i < |rules| && Matches(rules[i].matcher, id)
      && rules[i].source == r.value && forall j :: 0 <= j < i ==> !Matches(rules[j].matcher, id))
  {
    if rules == [] then None
    else if Matches(rules[0].matcher, id) then Some(rules[0].source)
    else
      var r := FirstMatch(rules[1..], id);
      assert forall i :: 1 <= i < |rules| ==> rules[i] == rules[1..][i - 1];
      if r.Some? then
        var i :| 0 <= i < |rules[1..]| && Matches(rules[1..][i].matcher, id)
          && rules[1..][i].source == r.value && forall j :: 0 <= j < i ==> !Matches(rules[1..][j].matcher, id);
        assert Matches(rules[i + 1].matcher, id) && rules[i + 1].source == r.value;
        r
      else r
  }

  lemma {:induction false} FirstMatchAppend(a: seq<StubRule>, b: seq<StubRule>, id: string)
    ensures FirstMatch(a + b, id) == if FirstMatch(a, id).Some? then FirstMatch(a, id) else FirstMatch(b, id)
    decreases |a|
  {
    if a != [] {
      assert (a + b)[1..] == a[1..] + b;
      FirstMatchAppend(a[1..], b, id);
    } else {
      assert a + b == b;
    }
  }

  /** A table of at most one rule, present when `present` holds. */
  lemma FirstMatchOptional(present: bool, r: StubRule, id: string)
    ensures FirstMatch(if present then [r] else [], id)
         == if present && Matches(r.matcher, id) then Some(r.source) else None
  {
  }

  /** A table of two rules, present when `present` holds. */
  lemma FirstMatchOptionalPair(present: bool, r1: StubRule, r2: StubRule, id: string)
    ensures FirstMatch(if present then [r1, r2] else [], id)
         == if !present then None
            else if Matches(r1.matcher, id) then Some(r1.source)
            else if Matches(r2.matcher, id) then Some(r2.source)
            else None
  {
    if present {
      assert [r1, r2][1..] == [r2];
    }
  }

  // ------------------------------------------------------------ delivery

  datatype Tag = StyleTag(children: string) | LinkTag(rel: string, href: string)

  /** `{ html, tags }` as `transformIndexHtml` returns it. */
  datatype HtmlResult = HtmlResult(html: string, tags: seq<Tag>)

  /** An asset handed to `emitFile`. */
  datatype Asset = Asset(fileName: string, source: string)

  /** The filesystem the plugin reads and writes: resolved path to file text. */
  class FileSystem {
    var files: map<string, string>

    constructor (files: map<string, string>)
      ensures this.files == files
    {
      this.files := files;
    }
  }

  /** The plugin object `vitePluginAntdvNoCssinjs(options)` returns, with the state its hooks share. */
  class AntdvNoCssinjs {
    const host: Host
    var config: Config
    var cssText: string
    var assetsPath: string
    var basePath: string

    /** `vitePluginAntdvNoCssinjs(options)`: defaults the options and reads or fills the cache. */
    constructor (options: Options, host: Host, fs: FileSystem, extract: Extractor)
      modifies fs, ThemeObjects(options.antdvConfig)
      ensures this.host == host && assetsPath == "assets" && basePath == ""
      ensures config == ResolveOptions(options, host).(cssFileName :=
        Created(options, host, old(ThemeValueOf(options.antdvConfig)), old(fs.files), extract).cssFileName)
      ensures cssText == Created(options, host, old(ThemeValueOf(options.antdvConfig)), old(fs.files), extract).cssText
      ensures fs.files == Created(options, host, old(ThemeValueOf(options.antdvConfig)), old(fs.files), extract).files
      ensures !Created(options, host, old(ThemeValueOf(options.antdvConfig)), old(fs.files), extract).extracted ==>
        unchanged(ThemeObjects(options.antdvConfig))
      ensures Created(options, host, old(ThemeValueOf(options.antdvConfig)), old(fs.files), extract).extracted ==>
        forall t <- ThemeObjects(options.antdvConfig) :: t.hashed == Some(false) && t.tokens == old(t.tokens)
    {
      var c := ResolveOptions(options, host);
      assert ThemeObjects(Some(c.antdvConfig)) == ThemeObjects(options.antdvConfig);
      assert ThemeValueOf(Some(c.antdvConfig)) == ThemeValueOf(options.antdvConfig);
      var name, text := InitCache(c, host, fs, extract);
      this.host := host;
      config := c.(cssFileName := name);
      cssText := text;
      assetsPath := "assets";
      basePath := "";
    }

    /** `configResolved`: records the build's assets directory and base path. */
    method ConfigResolved(assetsDir: string, base: string)
      modifies this`assetsPath, this`basePath
      ensures assetsPath == assetsDir && basePath == base
    {
      assetsPath := assetsDir;
      basePath := base;
    }

    /** The stand-ins `load` consults, in the order it consults them. */
    function StubRules(): (rules: seq<StubRule>)
      reads this
      ensures |rules| >= 1 && rules[0] == StubRule(Exactly(VirtualCssId), cssText)
    {
      [StubRule(Exactly(VirtualCssId), cssText)]
      + (if Notification in config.ignoreComponents then [StubRule(ContainsAnyOf(NotificationFiles), NotificationStub)] else [])
      + (if Message in config.ignoreComponents then [StubRule(ContainsAnyOf(MessageFiles), MessageStub)] else [])
      + (if config.offCssInJs then
           [StubRule(ContainsAnyOfAnd(UseStyleFiles, "es/"), UseStyleEsStub),
            StubRule(ContainsAnyOf(UseStyleFiles), UseStyleCjsStub)]
         else [])
    }

    /** The order of the table: the tests of `load`, each present under its condition. */
    lemma StubRulesOrder()
      ensures var rules := StubRules();
        && |rules| == 1 + (if Notification in config.ignoreComponents then 1 else 0)
             + (if Message in config.ignoreComponents then 1 else 0) + (if config.offCssInJs then 2 else 0)
        && (Notification in config.ignoreComponents ==>
              rules[1] == StubRule(ContainsAnyOf(NotificationFiles), NotificationStub))
        && (Message in config.ignoreComponents ==>
              rules[if Notification in config.ignoreComponents then 2 else 1] == StubRule(ContainsAnyOf(MessageFiles), MessageStub))
        && (config.offCssInJs ==>
              rules[|rules| - 2..] == [StubRule(ContainsAnyOfAnd(UseStyleFiles, "es/"), UseStyleEsStub),
                                       StubRule(ContainsAnyOf(UseStyleFiles), UseStyleCjsStub)])
    {
    }

    predicate StubsNotification(id: string)
      reads this
    {
      Notification in config.ignoreComponents && ContainsAny(id, NotificationFiles)
    }

    predicate StubsMessage(id: string)
      reads this
    {
      Message in config.ignoreComponents && ContainsAny(id, MessageFiles)
    }

    predicate StubsUseStyle(id: string)
      reads this
    {
      config.offCssInJs && ContainsAny(id, UseStyleFiles)
    }

    /** `load(id)`: the module text served for `id`, or None to leave it to the host. */
    function Load(id: string): (r: Option<string>)
      reads this
      ensures id == VirtualCssId ==> r == Some(cssText)
      ensures id != VirtualCssId && StubsNotification(id) ==> r == Some(NotificationStub)
      ensures id != VirtualCssId && !StubsNotification(id) && StubsMessage(id) ==> r == Some(MessageStub)
      ensures id != VirtualCssId && !StubsNotification(id) && !StubsMessage(id) && StubsUseStyle(id) ==>
        r == Some(if Contains(id, "es/") then UseStyleEsStub else UseStyleCjsStub)
      ensures id != VirtualCssId && !StubsNotification(id) && !StubsMessage(id) && !StubsUseStyle(id) ==>
        r.None?
    {
      var v := StubRule(Exactly(VirtualCssId), cssText);
      var n := StubRule(ContainsAnyOf(NotificationFiles), NotificationStub);
      var m := StubRule(ContainsAnyOf(MessageFiles), MessageStub);
      var es := StubRule(ContainsAnyOfAnd(UseStyleFiles, "es/"), UseStyleEsStub);
      var cjs := StubRule(ContainsAnyOf(UseStyleFiles), UseStyleCjsStub);
      var notification := if Notification in config.ignoreComponents then [n] else [];
      var message := if Message in config.ignoreComponents then [m] else [];
      var useStyle := if config.offCssInJs then [es, cjs] else [];
      assert StubRules() == [v] + notification + message + useStyle;
      FirstMatchAppend([v] + notification + message, useStyle, id);
      FirstMatchAppend([v] + notification, message, id);
      FirstMatchAppend([v], notification, id);
      FirstMatchOptional(true, v, id);
      FirstMatchOptional(Notification in config.ignoreComponents, n, id);
      FirstMatchOptional(Message in config.ignoreComponents, m, id);
      FirstMatchOptionalPair(config.offCssInJs, es, cjs, id);
      FirstMatch(StubRules(), id)
    }

    /**
     * The `es/` test does not tell the two builds apart for installed
     * packages: a style-hook module below `node_modules` always gets the ES
     * stand-in, the CommonJS one included.
     */
    lemma NodeModulesGetEsStub(id: string)
      requires id != VirtualCssId && !StubsNotification(id) && !StubsMessage(id) && StubsUseStyle(id)
      requires Contains(id, "node_modules/")
      ensures Load(id) == Some(UseStyleEsStub)
    {
      NodeModulesContainsEs(id);
    }

    /** `transformIndexHtml(html)`: the tags added to the page, or None to leave it as it is. */
    function TransformIndexHtml(html: string): (r: Option<HtmlResult>)
      reads this
      ensures r.Some? <==> config.cssFileType == InlineStyle || (config.cssFileType == StyleFile && Truthy(config.cssFileName))
      ensures r.Some? ==> r.value.html == html && |r.value.tags| == 1
    {
      if config.cssFileType == InlineStyle then
        Some(HtmlResult(html, [StyleTag(cssText)]))
      else if config.cssFileType == StyleFile && Truthy(config.cssFileName) then
        Some(HtmlResult(html, [LinkTag("stylesheet", host.posixJoin([basePath, assetsPath, config.cssFileName.value]))]))
      else None
    }

    /** `generateBundle()`: the assets emitted into the build output. */
    function GenerateBundle(): (assets: seq<Asset>)
      reads this
      ensures |assets| <= 1
      ensures assets != [] <==> config.cssFileType == StyleFile && Truthy(config.cssFileName)
      ensures forall a <- assets :: a.source == cssText
    {
      if config.cssFileType == StyleFile && Truthy(config.cssFileName) then
        [Asset(host.posixJoin([assetsPath, config.cssFileName.value]), cssText)]
      else []
    }

    /**
     * Each mode uses one channel: an inline style tag, or a link tag with the
     * asset it points to, or neither hook does anything (the style then comes
     * from the virtual module or from the file written at creation).
     */
    lemma DeliveryByMode(html: string)
      ensures config.cssFileType == InlineStyle ==>
        TransformIndexHtml(html) == Some(HtmlResult(html, [StyleTag(cssText)])) && GenerateBundle() == []
      ensures config.cssFileType == StyleFile && Truthy(config.cssFileName) ==>
        var name := config.cssFileName.value;
        && TransformIndexHtml(html) == Some(HtmlResult(html,
             [LinkTag("stylesheet", host.posixJoin([basePath, assetsPath, name]))]))
        && GenerateBundle() == [Asset(host.posixJoin([assetsPath, name]), cssText)]
      ensures !(config.cssFileType == InlineStyle || (config.cssFileType == StyleFile && Truthy(config.cssFileName))) ==>
        TransformIndexHtml(html).None? && GenerateBundle() == []
      ensures Load(VirtualCssId) == Some(cssText)
    {
    }
  }
}
