/**
  The generator's fixed options table. It is never changed while the
  generator runs, so it is an immutable record handed to every operation.
 */
module Config {

  datatype Config = Config(
    outputFile: string,
    contentDirectory: string,
    maxDirectoryDepth: nat,
    maxContentPreviews: nat,
    maxContentLines: nat,   // declared by the options table but read by no operation
    maxCodeLines: nat,
    ignoreDirectories: seq<string>,
    ignoreFiles: seq<string>,
    showcaseFiles: seq<string>
  )

  /** The options the generator ships with. */
  const Blueprint: Config := Config(
    "BLUEPRINT.md",
    "src/content",
    5,
    3,
    10,
    50,
    ["node_modules", ".git", ".astro", ".vscode", "dist"],
    [".DS_Store", ".env", "*.log", ".gitignore", "package-lock.json"],
    ["package.json", "astro.config.mjs", "./src/pages/index.astro", "./src/pages/[...page].astro"]
  )
}
