/** The configuration resolver of webpack.config.js: a total, pure function
    from the bundler's command-line arguments to the description of the build
    pipeline (entry point, output target, resolvable extensions, the one
    transform rule for Elm sources, the no-parse pattern and the development
    server). The bundler, the Elm loader and the server that consume the
    description are not part of this model. */
module WebpackConfig {

  import opened Wrappers
  import opened Strings

  /** The one mode string that selects production options. */
  const ProductionMode: string := "production"

  /** The loader that compiles Elm sources. */
  const ElmLoader: string := "elm-webpack-loader"

  /** The literal regular expressions of the configuration. A pattern ending in
      `$` is anchored at the end of the path; the others match anywhere. */
  datatype Pattern =
    | EndsWithLiteral(suffix: string)
    | ContainsLiteral(infix: string)

  /** A webpack condition test: does `p` match the absolute path `path`? */
  predicate Matches(p: Pattern, path: string) {
    match p
    case EndsWithLiteral(suffix) => EndsWith(path, suffix)
    case ContainsLiteral(infix) => Contains(path, infix)
  }

  /** The `/\.elm$/` pattern, used both as the rule's test and as noParse. */
  const ElmSource: Pattern := EndsWithLiteral(".elm")

  /** The options handed to elm-webpack-loader. */
  datatype LoaderOptions = LoaderOptions(optimize: bool, debug: bool)

  /** The `use` entry of a rule: which loader, with which options. */
  datatype Use = Use(loader: string, options: LoaderOptions)

  /** A module rule: files matching `test` and none of `exclude` go through `use`. */
  datatype Rule = Rule(test: Pattern, exclude: seq<Pattern>, use: Use)

  datatype Output = Output(path: string, filename: string)

  datatype ResolveOptions = ResolveOptions(extensions: seq<string>)

  datatype ModuleOptions = ModuleOptions(rules: seq<Rule>, noParse: Pattern)

  datatype DevServer = DevServer(contentBase: string, hot: bool, inline: bool, stats: string)

  /** The record the resolver returns, field for field. */
  datatype Config = Config(
    entry: string,
    output: Output,
    resolve: ResolveOptions,
    moduleOptions: ModuleOptions,
    devServer: DevServer)

  /** `argv.mode === "production"`. Absent or non-string modes are `None`:
      strict equality with a string is false for them. */
  function IsProduction(mode: Option<string>): (b: bool)
    ensures b <==> mode == Some(ProductionMode)
  {
    match mode
    case None => false
    case Some(m) => m == ProductionMode
  }

  /** The resolver exported by the configuration file; `dirname` stands for
      `__dirname`, the directory the configuration file lives in. The `env`
      argument is never read and is not a parameter. */
  function Resolve(mode: Option<string>, dirname: string): (c: Config)
    ensures |c.moduleOptions.rules| == 1
    ensures c.moduleOptions.rules[0].use.options.optimize <==> mode == Some(ProductionMode)
    ensures c.moduleOptions.rules[0].use.options.debug == !c.moduleOptions.rules[0].use.options.optimize
  {
    var isProduction := IsProduction(mode);
    Config(
      entry := "./src/index.js",
      output := Output(path := dirname + "/docs", filename := "app.js"),
      resolve := ResolveOptions(extensions := [".js", ".elm"]),
      moduleOptions := ModuleOptions(
        rules := [
          Rule(
            test := ElmSource,
            exclude := [ContainsLiteral("elm-stuff"), ContainsLiteral("node_modules")],
            use := Use(
              loader := ElmLoader,
              options := LoaderOptions(optimize := isProduction, debug := !isProduction)))
        ],
        noParse := ElmSource),
      devServer := DevServer(
        contentBase := "./docs",
        hot := true,
        inline := true,
        stats := "errors-only"))
  }

  /** The options of the resolved Elm rule. */
  function ElmOptions(c: Config): LoaderOptions
    requires |c.moduleOptions.rules| > 0
  {
    c.moduleOptions.rules[0].use.options
  }

  /** Webpack's reading of one rule: it applies to `path` when its test
      matches and none of its exclude conditions does. */
  predicate RuleApplies(r: Rule, path: string) {
    Matches(r.test, path) && forall i :: 0 <= i < |r.exclude| ==> !Matches(r.exclude[i], path)
  }

  /** Some rule of `c` sends `path` through `loader`. */
  predicate RoutesTo(c: Config, path: string, loader: string) {
    exists i :: 0 <= i < |c.moduleOptions.rules| &&
      RuleApplies(c.moduleOptions.rules[i], path) &&
      c.moduleOptions.rules[i].use.loader == loader
  }

  /** `path` is transformed by elm-webpack-loader under `c`. */
  predicate RoutesToElmLoader(c: Config, path: string) {
    RoutesTo(c, path, ElmLoader)
  }

  /** `path` is treated as opaque and never scanned for imports under `c`. */
  predicate IsNoParse(c: Config, path: string) {
    Matches(c.moduleOptions.noParse, path)
  }

  // ---------------------------------------------------------------------
  // Mode handling
  // ---------------------------------------------------------------------

  /** Exactly the string "production" turns optimisation on, and `debug` is
      its negation, so the two flags are never both on nor both off. */
  lemma FlagsComplementary(mode: Option<string>, dirname: string)
    ensures ElmOptions(Resolve(mode, dirname)).optimize <==> mode == Some("production")
    ensures ElmOptions(Resolve(mode, dirname)).debug <==> mode != Some("production")
    ensures ElmOptions(Resolve(mode, dirname)).optimize != ElmOptions(Resolve(mode, dirname)).debug
  {
  }

  /** Any mode other than the exact string "production" falls back to
      development options, without an error. */
  lemma DevelopmentFallback(mode: Option<string>, dirname: string)
    requires mode != Some("production")
    ensures ElmOptions(Resolve(mode, dirname)) == LoaderOptions(optimize := false, debug := true)
  {
  }

  /** The fallback on the inputs the configuration's users meet: the
      development mode, a differently cased "PRODUCTION", the empty string
      and an absent mode all give development options; "production" does not. */
  lemma ModeScenarios(dirname: string)
    ensures ElmOptions(Resolve(Some("production"), dirname)) == LoaderOptions(true, false)
    ensures ElmOptions(Resolve(Some("development"), dirname)) == LoaderOptions(false, true)
    ensures ElmOptions(Resolve(Some("PRODUCTION"), dirname)) == LoaderOptions(false, true)
    ensures ElmOptions(Resolve(Some(""), dirname)) == LoaderOptions(false, true)
    ensures ElmOptions(Resolve(None, dirname)) == LoaderOptions(false, true)
  {
  }

  /** Only the loader options depend on the mode: two resolutions agree on
      every other field, and they are equal exactly when both or neither
      mode is "production". */
  lemma OnlyOptionsVary(m1: Option<string>, m2: Option<string>, dirname: string)
    ensures var c1, c2 := Resolve(m1, dirname), Resolve(m2, dirname);
      c1.entry == c2.entry && c1.output == c2.output && c1.resolve == c2.resolve &&
      c1.moduleOptions.noParse == c2.moduleOptions.noParse && c1.devServer == c2.devServer &&
      |c1.moduleOptions.rules| == |c2.moduleOptions.rules| &&
      (forall i :: 0 <= i < |c1.moduleOptions.rules| ==>
        c1.moduleOptions.rules[i].test == c2.moduleOptions.rules[i].test &&
        c1.moduleOptions.rules[i].exclude == c2.moduleOptions.rules[i].exclude &&
        c1.moduleOptions.rules[i].use.loader == c2.moduleOptions.rules[i].use.loader)
    ensures Resolve(m1, dirname) == Resolve(m2, dirname) <==> (m1 == Some("production") <==> m2 == Some("production"))
  {
  }

  /** The configuration's own directory enters only the output path. */
  lemma OnlyOutputPathDependsOnDirname(mode: Option<string>, d1: string, d2: string)
    ensures Resolve(mode, d1).(output := Resolve(mode, d2).output) == Resolve(mode, d2)
    ensures Resolve(mode, d1).output.filename == Resolve(mode, d2).output.filename
    ensures Resolve(mode, d1) == Resolve(mode, d2) <==> d1 == d2
  {
    if Resolve(mode, d1) == Resolve(mode, d2) {
      var p1, p2 := d1 + "/docs", d2 + "/docs";
      assert p1 == p2;
      assert p1[..|d1|] == d1 && p2[..|d2|] == d2;
    }
  }

  // ---------------------------------------------------------------------
  // Fixed fields
  // ---------------------------------------------------------------------

  /** Entry point, output target and extension order are constants; the
      output directory is `docs` under the configuration's directory, and
      plain scripts resolve before Elm sources. */
  lemma FixedOutput(mode: Option<string>, dirname: string)
    ensures Resolve(mode, dirname).entry == "./src/index.js"
    ensures Resolve(mode, dirname).output == Output(dirname + "/docs", "app.js")
    ensures Resolve(mode, dirname).resolve.extensions == [".js", ".elm"]
  {
  }

  /** The development server is always configured: it serves the relative
      `./docs` directory, the same `docs` directory the output path ends in,
      with hot reloading and inline mode on and only errors reported. */
  lemma DevServerFixed(mode: Option<string>, dirname: string)
    ensures Resolve(mode, dirname).devServer == DevServer("./docs", true, true, "errors-only")
    ensures EndsWith(Resolve(mode, dirname).devServer.contentBase, "/docs")
    ensures EndsWith(Resolve(mode, dirname).output.path, "/docs")
  {
  }

  // ---------------------------------------------------------------------
  // Which files the rule transforms
  // ---------------------------------------------------------------------

  /** A path goes through elm-webpack-loader exactly when it ends in `.elm`
      and contains neither `elm-stuff` nor `node_modules`. */
  lemma RoutesToElmLoaderIff(mode: Option<string>, dirname: string, path: string)
    ensures RoutesToElmLoader(Resolve(mode, dirname), path) <==>
      EndsWith(path, ".elm") && !Contains(path, "elm-stuff") && !Contains(path, "node_modules")
  {
    var c := Resolve(mode, dirname);
    var r := c.moduleOptions.rules[0];
    if EndsWith(path, ".elm") && !Contains(path, "elm-stuff") && !Contains(path, "node_modules") {
      assert RuleApplies(r, path);
      assert RoutesTo(c, path, ElmLoader) by { assert 0 < |c.moduleOptions.rules|; }
    }
    if RoutesToElmLoader(c, path) {
      var i :| 0 <= i < |c.moduleOptions.rules| && RuleApplies(c.moduleOptions.rules[i], path) &&
        c.moduleOptions.rules[i].use.loader == ElmLoader;
      assert i == 0;
      assert !Matches(r.exclude[0], path) && !Matches(r.exclude[1], path);
    }
  }

  /** No file under either excluded directory, `elm-stuff` (Elm's build
      artifacts) or `node_modules` (dependencies), is transformed, whatever
      its name, even one ending in `.elm`. */
  lemma ExcludedDirectoryNeverTransformed(mode: Option<string>, dirname: string, front: string, dir: string, back: string)
    requires dir == "elm-stuff" || dir == "node_modules"
    ensures !RoutesToElmLoader(Resolve(mode, dirname), front + dir + back)
  {
    ContainsInfix(front, dir, back);
    RoutesToElmLoaderIff(mode, dirname, front + dir + back);
  }

  /** Files that do not end in `.elm` are never transformed. */
  lemma NonElmNeverTransformed(mode: Option<string>, dirname: string, path: string)
    requires !EndsWith(path, ".elm")
    ensures !RoutesToElmLoader(Resolve(mode, dirname), path)
    ensures !IsNoParse(Resolve(mode, dirname), path)
  {
  }

  /** A `.elm` path that lacks some character of `elm-stuff` and some
      character of `node_modules` (so it can lie under neither excluded
      directory) is transformed, in both modes. */
  lemma MissingExcludedCharTransformed(mode: Option<string>, dirname: string, path: string, c1: char, c2: char)
    requires EndsWith(path, ".elm")
    requires c1 in "elm-stuff" && c1 !in path
    requires c2 in "node_modules" && c2 !in path
    ensures RoutesToElmLoader(Resolve(mode, dirname), path)
  {
    MissingCharNotContained(path, "elm-stuff", c1);
    MissingCharNotContained(path, "node_modules", c2);
    RoutesToElmLoaderIff(mode, dirname, path);
  }

  /** The main module of a checkout whose directory name has a `-` in it is
      still transformed: the path contains neither excluded directory. */
  lemma CheckoutSourceTransformed(mode: Option<string>)
    ensures RoutesToElmLoader(Resolve(mode, "/home/u/elm-labyrinth"), "/home/u/elm-labyrinth/src/Main.elm")
  {
    var name := "/home/u/elm-labyrinth/src/Main";
    var path := name + ".elm";
    assert path == "/home/u/elm-labyrinth/src/Main.elm";
    assert 'f' !in name && '_' !in name;
    assert 'f' !in ".elm" && '_' !in ".elm";
    EndsWithAppend(name, ".elm");
    MissingExcludedCharTransformed(mode, "/home/u/elm-labyrinth", path, 'f', '_');
  }

  /** The noParse pattern is the rule's test pattern, so every file the rule
      transforms is also left unparsed. */
  lemma TransformedIsNoParse(mode: Option<string>, dirname: string, path: string)
    ensures Resolve(mode, dirname).moduleOptions.noParse == Resolve(mode, dirname).moduleOptions.rules[0].test
    ensures RoutesToElmLoader(Resolve(mode, dirname), path) ==> IsNoParse(Resolve(mode, dirname), path)
  {
  }

  /** A path is left unparsed exactly when it ends in `.elm`, whether or not
      the rule transforms it. */
  lemma NoParseIff(mode: Option<string>, dirname: string, path: string)
    ensures IsNoParse(Resolve(mode, dirname), path) <==> EndsWith(path, ".elm")
  {
  }

  /** A `.elm` file under an excluded directory is not transformed but is
      still left unparsed, since noParse carries no exclusions. */
  lemma ExcludedElmStillNoParse(mode: Option<string>, dirname: string, front: string, dir: string, back: string)
    requires dir == "elm-stuff" || dir == "node_modules"
    ensures !RoutesToElmLoader(Resolve(mode, dirname), front + dir + back + ".elm")
    ensures IsNoParse(Resolve(mode, dirname), front + dir + back + ".elm")
  {
    ExcludedDirectoryNeverTransformed(mode, dirname, front, dir, back + ".elm");
    assert front + dir + (back + ".elm") == front + dir + back + ".elm";
    EndsWithAppend(front + dir + back, ".elm");
  }

}
