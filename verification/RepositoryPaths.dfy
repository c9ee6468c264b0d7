/** The path predicates of `github/selection.ts`: which repository paths acquisition selects,
    ignores, or must report as a gap in source coverage. */
module RepositoryPaths {
  import opened Text

  function BaseName(path: string): string
  {
    if path == "" then ""
    else if '/' in path[1..] then BaseName(path[1..])
    else if path[0] == '/' then path[1..]
    else path
  }

  function LowerChar(c: char): char {
    if 'A' <= c <= 'Z' then ((c as int - 'A' as int) + 'a' as int) as char else c
  }

  function Lower(s: string): string {
    seq(|s|, i requires 0 <= i < |s| => LowerChar(s[i]))
  }

  function Split(s: string, separator: char): (parts: seq<string>)
    ensures |parts| > 0
  {
    if s == "" then [""]
    else
      var rest := Split(s[1..], separator);
      if s[0] == separator then [""] + rest
      else [[s[0]] + rest[0]] + rest[1..]
  }

  predicate EndsWithAny(s: string, suffixes: seq<string>) {
    exists k :: 0 <= k < |suffixes| && EndsWith(s, suffixes[k])
  }

  const SOURCE_EXTENSIONS: seq<string> :=
    [".js", ".jsx", ".cjs", ".mjs", ".ts", ".tsx", ".cts", ".mts", ".mdx"]

  const UNSUPPORTED_EXTENSIONS: seq<string> := [".astro", ".svelte", ".vue"]

  const CONFIG_PREFIXES: seq<string> :=
    ["eslint.config.", "jest.config.", "next.config.", "prettier.config.", "rollup.config.",
     "tailwind.config.", "vite.config.", "vitest.config.", "webpack.config."]

  const IGNORED_DIRECTORIES: set<string> :=
    {".git", ".next", ".nuxt", ".output", ".turbo", "bower_components", "build", "coverage",
     "dist", "node_modules", "out", "target", "vendor"}

  predicate IsSourcePath(path: string) {
    EndsWithAny(Lower(BaseName(path)), SOURCE_EXTENSIONS)
  }

  predicate IsUnsupportedSourcePath(path: string) {
    EndsWithAny(Lower(BaseName(path)), UNSUPPORTED_EXTENSIONS)
  }

  predicate IsCanonicalPath(path: string) {
    && 0 < |path| <= 1000
    && path[0] != '/'
    && '\\' !in path
    && (forall i :: 0 <= i < |path| ==> 0x1f < path[i] as int && path[i] as int != 0x7f)
    && forall part :: part in Split(path, '/') ==> part != "" && part != "." && part != ".."
  }

  predicate IsIgnoredPath(path: string) {
    var parts := Split(path, '/');
    exists k :: 0 <= k < |parts| - 1 && parts[k] in IGNORED_DIRECTORIES
  }

  predicate IsLockfilePath(path: string) {
    path in {"package-lock.json", "pnpm-lock.yaml", "yarn.lock"}
  }

  /** `tsconfig.<one dot-free part>.json` */
  predicate IsNamedTsconfig(name: string) {
    && StartsWith(name, "tsconfig.") && EndsWith(name, ".json") && |name| > 14
    && '.' !in name[9..|name| - 5]
  }

  predicate IsInitiallySupportedPath(path: string) {
    var name := BaseName(path);
    || name == "package.json"
    || path in {"pnpm-workspace.yaml", "turbo.json"}
    || IsLockfilePath(path)
    || IsSourcePath(path)
    || name in {"tsconfig.json", ".eslintrc.json", ".prettierrc", ".prettierrc.json", "biome.json", "biome.jsonc"}
    || IsNamedTsconfig(name)
    || StartsWith(name, ".eslintrc.")
    || StartsWith(name, ".prettierrc.")
    || exists k :: 0 <= k < |CONFIG_PREFIXES| && StartsWith(name, CONFIG_PREFIXES[k])
  }

  /** A path whose base name ends in `config.js`, `config.mts`, … */
  predicate IsScriptConfigPath(path: string) {
    EndsWithAny(path, ["config.js", "config.ts", "config.cjs", "config.cts", "config.mjs", "config.mts"])
  }

  /** What a configuration selector may ask for: JSON, JSONC, JavaScript or TypeScript. */
  predicate IsConfigurationCandidatePath(path: string) {
    EndsWithAny(path, [".json", ".jsonc", ".js", ".ts", ".cjs", ".cts", ".mjs", ".mts"])
  }

  /** A skipped path that leaves a hole in the source evidence. */
  predicate AffectsUsageEvidence(path: string) {
    path != "package.json" && !IsLockfilePath(path) && IsInitiallySupportedPath(path)
  }

  // ----- facts the coverage verdict rests on -----

  lemma BaseNameOfPlain(path: string)
    requires '/' !in path
    ensures BaseName(path) == path
  {
    if path != "" { assert path[0] != '/'; }
  }

  lemma LastCharacter(s: string, suffix: string)
    requires EndsWith(s, suffix) && suffix != ""
    ensures s != "" && s[|s| - 1] == suffix[|suffix| - 1]
  {
  }

  lemma SourceEnding(path: string)
    requires IsSourcePath(path)
    ensures var name := Lower(BaseName(path));
      name != "" && name[|name| - 1] in {'s', 'x'}
  {
    var name := Lower(BaseName(path));
    var k :| 0 <= k < |SOURCE_EXTENSIONS| && EndsWith(name, SOURCE_EXTENSIONS[k]);
    LastCharacter(name, SOURCE_EXTENSIONS[k]);
  }

  lemma UnsupportedEnding(path: string)
    requires IsUnsupportedSourcePath(path)
    ensures var name := Lower(BaseName(path));
      name != "" && name[|name| - 1] in {'o', 'e'}
  {
    var name := Lower(BaseName(path));
    var k :| 0 <= k < |UNSUPPORTED_EXTENSIONS| && EndsWith(name, UNSUPPORTED_EXTENSIONS[k]);
    LastCharacter(name, UNSUPPORTED_EXTENSIONS[k]);
  }

  lemma NotSourceByEnding(path: string)
    requires '/' !in path && path != "" && path[|path| - 1] in {'n', 'l', 'k'}
    ensures !IsSourcePath(path)
  {
    BaseNameOfPlain(path);
    assert Lower(path)[|path| - 1] == LowerChar(path[|path| - 1]);
    if IsSourcePath(path) { SourceEnding(path); }
  }

  lemma ManifestsAndLockfilesAreNotSources()
    ensures !IsSourcePath("package.json")
    ensures forall path :: IsLockfilePath(path) ==> !IsSourcePath(path)
  {
    NotSourceByEnding("package.json");
    NotSourceByEnding("package-lock.json");
    NotSourceByEnding("pnpm-lock.yaml");
    NotSourceByEnding("yarn.lock");
  }

  /** A supported source path is never classified as an unsupported format, is always selected,
      and leaves a hole in the evidence whenever it is skipped. */
  lemma SourcePathsCount(path: string)
    requires IsSourcePath(path)
    ensures !IsUnsupportedSourcePath(path)
    ensures IsInitiallySupportedPath(path)
    ensures path != "package.json"
    ensures AffectsUsageEvidence(path)
  {
    ManifestsAndLockfilesAreNotSources();
    SourceEnding(path);
    if IsUnsupportedSourcePath(path) { UnsupportedEnding(path); }
  }
}
