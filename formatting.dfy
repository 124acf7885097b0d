/**
  Formatting utilities: the fenced Markdown blocks that present a sampled
  markdown file and a sampled showcase file.
 */
module Formatting {
  import opened Seqs
  import opened Text
  import opened Config
  import opened ContentHandlers

  /** The number of lines a markdown preview keeps; a literal of its own, not an option. */
  const PreviewLineCount: nat := 5

  /** The heading and opening fence of a markdown preview. */
  function MarkdownPreviewHead(name: string): string {
    "### " + name + "\n```markdown\n"
  }

  /** The ellipsis line and closing fence that end every markdown preview. */
  const MarkdownPreviewTail: string := "\n...\n```"

  /**
    `formatMarkdownPreview`: the block starts with `### name` and the
    markdown fence, and always ends with a `...` line and the closing fence,
    even when nothing was cut. Between them stands a prefix of the file's text
    whose lines are the first five lines of the file (all of them, unchanged,
    when it has at most five).
   */
  function FormatMarkdownPreview(file: MarkdownSample): (r: string)
    ensures var head := MarkdownPreviewHead(file.name);
      && |head| + |MarkdownPreviewTail| <= |r|
      && r[..|head|] == head
      && r[|r| - |MarkdownPreviewTail|..] == MarkdownPreviewTail
      && var body := r[|head|..|r| - |MarkdownPreviewTail|];
         && body <= file.content
         && Split(body, '\n') == Take(Split(file.content, '\n'), PreviewLineCount)
         && (|Split(file.content, '\n')| <= PreviewLineCount ==> body == file.content)
  {
    var head := MarkdownPreviewHead(file.name);
    var body := TruncateLines(file.content, PreviewLineCount);
    var r := head + body + MarkdownPreviewTail;
    assert r[|head|..|r| - |MarkdownPreviewTail|] == body;
    r
  }

  /**
    `detectCodeLanguage`: the fence label chosen by extension alone: `json`
    for `.json`, `toml` for `.toml`, and `javascript` for everything else,
    `.astro` included.
   */
  function DetectCodeLanguage(fileName: string): (language: string)
    ensures EndsWith(fileName, ".json") ==> language == "json"
    ensures !EndsWith(fileName, ".json") && EndsWith(fileName, ".toml") ==> language == "toml"
    ensures !EndsWith(fileName, ".json") && !EndsWith(fileName, ".toml") ==> language == "javascript"
  {
    if EndsWith(fileName, ".json") then "json"
    else if EndsWith(fileName, ".toml") then "toml"
    else if EndsWith(fileName, ".astro") then "javascript"
    else "javascript"
  }

  /** The labels the shipped showcase files get. */
  lemma ShowcaseLanguages()
    ensures DetectCodeLanguage(Blueprint.showcaseFiles[0]) == "json"
    ensures DetectCodeLanguage(Blueprint.showcaseFiles[1]) == "javascript"
    ensures DetectCodeLanguage(Blueprint.showcaseFiles[2]) == "javascript"
    ensures DetectCodeLanguage(Blueprint.showcaseFiles[3]) == "javascript"
  {
    assert "astro.config.mjs"[12..] == ".mjs";
    assert "./src/pages/index.astro"[18..] == "astro";
    assert "./src/pages/[...page].astro"[22..] == "astro";
  }

  /** The heading and opening fence of a code example. */
  function CodeHead(name: string): string {
    "### " + name + "\n```" + DetectCodeLanguage(name) + "\n"
  }

  /** The closing fence of a code example. */
  const CodeTail: string := "\n```"

  /**
    `formatCodeContent`: the block starts with `### name` and a fence
    labelled by the file's extension, and ends with the closing fence. Between
    them stands a prefix of the file's text whose lines are its first
    `maxCodeLines` lines; a file of at most `maxCodeLines` lines is
    reproduced verbatim, with nothing appended.
   */
  function FormatCodeContent(cfg: Config, file: CodeSample): (r: string)
    ensures var head := CodeHead(file.name);
      && |head| + |CodeTail| <= |r|
      && r[..|head|] == head
      && r[|r| - |CodeTail|..] == CodeTail
      && var body := r[|head|..|r| - |CodeTail|];
         && body <= file.content
         && Split(body, '\n') == (if cfg.maxCodeLines == 0 then [""] else Take(Split(file.content, '\n'), cfg.maxCodeLines))
         && (|Split(file.content, '\n')| <= cfg.maxCodeLines ==> body == file.content)
  {
    var head := CodeHead(file.name);
    var body := TruncateLines(file.content, cfg.maxCodeLines);
    var r := head + body + CodeTail;
    assert r[|head|..|r| - |CodeTail|] == body;
    r
  }
}
