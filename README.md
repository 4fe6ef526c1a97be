# Elm labyrinth build configuration, modelled in Dafny

The repository's only logic is the webpack configuration resolver exported by
`webpack.config.js`. It takes the bundler's `(env, argv)` and returns the
pipeline description:

- the entry point;
- the output target (directory and file name);
- the resolvable extensions;
- one module rule that sends Elm sources through `elm-webpack-loader`;
- the no-parse pattern;
- the development-server settings.

Only the loader's `optimize` and `debug` flags depend on the build mode.

The model has three modules:

- `Wrappers` (`wrappers.dfy`): an `Option` type for the possibly absent `argv.mode`.
- `Strings` (`strings.dfy`): the string predicates that give the three literal
  regular expressions their meaning. `/\.elm$/` is a suffix test (`EndsWith`).
  `/elm-stuff/` and `/node_modules/` are substring tests (`Contains`). Each
  predicate is proved equal to an independent reference definition.
- `WebpackConfig` (`webpack_config.dfy`): the `Config` datatype, which follows
  the returned object literal field by field, and the resolver `Resolve`.
  It also holds webpack's reading of a rule (`RuleApplies`, `RoutesToElmLoader`,
  `IsNoParse`) and the lemmas about the resolved configuration.

`Resolve(mode, dirname)` takes `argv.mode` as an `Option<string>`. An absent
mode is `None`. A non-string value behaves the same way, because `===` with a
string is false for it. `dirname` stands for `__dirname`. `env` is never read,
so it is not a parameter.

Idempotence needs no lemma: `Resolve` is a Dafny function, so equal arguments
give equal results.

## Model

| member | source | states |
|---|---|---|
| WebpackConfig.Matches | webpack.config.js:19-31 | the reading of a literal pattern: an end-anchored literal is a suffix test, an unanchored one a substring test; its meaning is proved in `Strings.EndsWithIff` and `Strings.ContainsIff` |
| WebpackConfig.RuleApplies | webpack.config.js:18-28 | a rule applies when its test matches and none of its exclude patterns does; proved for the resolved rule in `RoutesToElmLoaderIff` |
| WebpackConfig.RoutesToElmLoader | webpack.config.js:17-29 | some rule that applies names elm-webpack-loader; characterised in `RoutesToElmLoaderIff` |
| WebpackConfig.IsNoParse | webpack.config.js:31 | the noParse pattern matches the path; characterised in `NoParseIff` |
| Strings.EndsWith | webpack.config.js:19 | the end-anchored literal `/\.elm$/`; equal to the reference definition by `Strings.EndsWithIff` |
| Strings.Contains | webpack.config.js:20 | the unanchored literals `/elm-stuff/` and `/node_modules/`; equal to the reference definition by `Strings.ContainsIff` |
| WebpackConfig.IsProduction | webpack.config.js:2 | the production flag holds exactly when the mode is present and equals the string "production"; any other string or an absent mode gives false |
| WebpackConfig.Resolve | webpack.config.js:1-41 | the resolved configuration has exactly one rule; its `optimize` holds iff the mode is exactly "production" and its `debug` is always the negation of `optimize` |
| WebpackConfig.FlagsComplementary | webpack.config.js:2-25 | optimize iff mode is "production", debug iff it is not, so the two flags always differ |
| WebpackConfig.DevelopmentFallback | webpack.config.js:2 | every mode other than exactly "production", absent included, yields development options (optimize off, debug on) with no error path |
| WebpackConfig.ModeScenarios | webpack.config.js:2-25 | "production" gives (true, false); "development", "PRODUCTION", "" and an absent mode give (false, true) |
| WebpackConfig.OnlyOptionsVary | webpack.config.js:4-39 | two resolutions with different modes agree on entry, output, extensions, each rule's test, exclude and loader, noParse and devServer, and are equal iff both or neither mode is "production" |
| WebpackConfig.OnlyOutputPathDependsOnDirname | webpack.config.js:7-10 | the configuration directory enters only the output path; the file name never depends on it, and different directories give different configurations |
| WebpackConfig.FixedOutput | webpack.config.js:5-13 | entry is "./src/index.js", output is (dirname + "/docs", "app.js"), and extensions are exactly [".js", ".elm"] in that order, for every mode |
| WebpackConfig.DevServerFixed | webpack.config.js:34-39 | the dev server is always (contentBase "./docs", hot, inline, stats "errors-only"), and both the served directory and the output path end in "/docs" |
| WebpackConfig.RoutesToElmLoaderIff | webpack.config.js:17-29 | a path goes through elm-webpack-loader iff it ends in ".elm" and contains neither "elm-stuff" nor "node_modules" |
| WebpackConfig.ExcludedDirectoryNeverTransformed | webpack.config.js:20 | no path of the form front + "elm-stuff" + back or front + "node_modules" + back is transformed, even one ending in ".elm" |
| WebpackConfig.NonElmNeverTransformed | webpack.config.js:19-31 | a path not ending in ".elm" is neither transformed nor marked no-parse |
| WebpackConfig.MissingExcludedCharTransformed | webpack.config.js:19-22 | a path ending in ".elm" that lacks some character of "elm-stuff" and some character of "node_modules" is transformed, in every mode |
| WebpackConfig.CheckoutSourceTransformed | webpack.config.js:19-22 | the main module of a checkout at "/home/u/elm-labyrinth", whose directory name contains '-', is transformed with that directory as `__dirname`, in every mode |
| WebpackConfig.TransformedIsNoParse | webpack.config.js:19-31 | the noParse pattern is the rule's test pattern, so every path the rule transforms is also not parsed |
| WebpackConfig.NoParseIff | webpack.config.js:31 | a path is left unparsed exactly when it ends in ".elm", whether or not the rule transforms it |
| WebpackConfig.ExcludedElmStillNoParse | webpack.config.js:20-31 | a ".elm" file under "elm-stuff" or "node_modules" is not transformed but is still left unparsed |
| Strings.EndsWithIff | webpack.config.js:19 | the end-anchored test `EndsWith(s, x)` holds iff `s` is some string followed by `x` |
| Strings.EndsWithAppend | webpack.config.js:19 | any string followed by a suffix passes the suffix test for it |
| Strings.ContainsIff | webpack.config.js:20 | the scanning substring test holds iff the pattern occurs at some position of the string |
| Strings.ContainsInfix | webpack.config.js:20 | a string built as front + pattern + back contains the pattern |
| Strings.MissingCharNotContained | webpack.config.js:20 | a string lacking one of the pattern's characters does not contain the pattern |

## Left out

- Webpack itself is not modelled: module-graph construction, import resolution by the extension list, bundling and minification. The model gives the configuration only; it does not model what webpack does with it.
- elm-webpack-loader and the Elm compiler are foreign code that the configuration names only as the string `elm-webpack-loader`.
- The development server's HTTP, hot-reload and file-watching machinery is I/O and is not modelled. Only its settings record is.
- General JavaScript regular expressions are not modelled. Only the three literal patterns are, as suffix and substring predicates.
- `env` is accepted by the source but never read, so the model has no such parameter.
- `__dirname` is ambient in the source. The model makes it the `dirname` parameter.
- `contentBase` is the relative `./docs` (webpack.config.js:35) and `output.path` is the absolute `__dirname + '/docs'` (webpack.config.js:8). They name the same directory only when the bundler runs from the configuration's directory, so the model proves only that both end in `/docs` (`DevServerFixed`).
- The types of a non-string `argv.mode` (null, numbers, objects) are not modelled separately. They all behave like an absent mode, which `None` stands for.
