/**
  Document generation: the blueprint assembled from the tree, the markdown
  previews and the code examples. The clock reading is a parameter.
 */
module DocumentGeneration {
  import opened Seqs
  import opened Text
  import opened Config
  import opened FileSystem
  import opened TreeGeneration
  import opened ContentHandlers
  import opened Formatting

  /** The title line and the text before the timestamp. */
  const TitleAndStampLead: string := "# \U{1F5FA}\U{FE0F} PROJECT BLUEPRINT\n*Generated "

  /** The hardcoded three-step workflow, naming the content directory. */
  function WorkflowSection(cfg: Config): string {
    "## CORE WORKFLOW\n"
    + "1. **Content**: Add/edit markdown files in `" + cfg.contentDirectory + "/` \n"
    + "2. **Build**: `npm run build` (Astro generates static site)\n"
    + "3. **Deploy**: Commit changes, submit a pull request for review\n"
  }

  /** The tree lines, one per line, in a fenced block under their header. */
  function StructureSection(fileTree: seq<string>): string {
    "## PROJECT STRUCTURE\n```\n" + Join(fileTree, "\n") + "\n```\n"
  }

  /** The code examples, then the content examples, each list separated by blank lines. */
  function ExamplesSections(markdownPreviews: seq<string>, codeExamples: seq<string>): string {
    "## KEY FILE CODE EXAMPLES\n" + Join(codeExamples, "\n\n") + "\n\n"
    + "## CONTENT EXAMPLES\n" + Join(markdownPreviews, "\n\n") + "\n"
  }

  /**
    `generateTemplate`: the fixed Markdown template; every section header is
    present whether or not its list is empty. The document opens with the
    title and the timestamp, and closes with a line break.
   */
  function GenerateTemplate(cfg: Config, timestamp: string, fileTree: seq<string>,
                            markdownPreviews: seq<string>, codeExamples: seq<string>): (doc: string)
    ensures TitleAndStampLead + timestamp <= doc
    ensures |doc| > 0 && doc[|doc| - 1] == '\n'
  {
    var lead := TitleAndStampLead + timestamp;
    var doc := lead + ("*\n\n"
      + WorkflowSection(cfg) + "\n"
      + StructureSection(fileTree) + "\n"
      + ExamplesSections(markdownPreviews, codeExamples));
    doc
  }

  /**
    Two documents made from the same parts at different times agree
    everywhere except in the timestamp, which stands at a fixed offset.
   */
  lemma TemplateVariesOnlyInTimestamp(cfg: Config, t1: string, t2: string, fileTree: seq<string>,
                                      markdownPreviews: seq<string>, codeExamples: seq<string>)
    ensures var d1 := GenerateTemplate(cfg, t1, fileTree, markdownPreviews, codeExamples);
            var d2 := GenerateTemplate(cfg, t2, fileTree, markdownPreviews, codeExamples);
            var k := |TitleAndStampLead|;
      && k + |t1| <= |d1| && k + |t2| <= |d2|
      && d1[..k] == d2[..k] == TitleAndStampLead
      && d1[k..k + |t1|] == t1
      && d1[k + |t1|..] == d2[k + |t2|..]
  {
    var rest := "*\n\n" + WorkflowSection(cfg) + "\n" + StructureSection(fileTree) + "\n"
      + ExamplesSections(markdownPreviews, codeExamples);
    assert GenerateTemplate(cfg, t1, fileTree, markdownPreviews, codeExamples) == TitleAndStampLead + t1 + rest;
    assert GenerateTemplate(cfg, t2, fileTree, markdownPreviews, codeExamples) == TitleAndStampLead + t2 + rest;
  }

  /** The text before the structure section: the title, the timestamp and the workflow. */
  function TemplateLead(cfg: Config, timestamp: string): string {
    TitleAndStampLead + timestamp + "*\n\n" + WorkflowSection(cfg) + "\n"
  }

  /**
    Only a re-association step for `TemplateSections`: the template's body
    regrouped around the structure section. Kept as a lemma of its own
    because proving it inline makes `TemplateSections` too costly.
   */
  lemma TemplateShape(cfg: Config, timestamp: string, fileTree: seq<string>,
                      markdownPreviews: seq<string>, codeExamples: seq<string>)
    ensures GenerateTemplate(cfg, timestamp, fileTree, markdownPreviews, codeExamples)
         == TemplateLead(cfg, timestamp) + StructureSection(fileTree) + "\n" + ExamplesSections(markdownPreviews, codeExamples)
  {
  }

  /**
    The document holds the tree as a fenced block, and ends with the code
    examples section followed by the content examples section.
   */
  lemma TemplateSections(cfg: Config, timestamp: string, fileTree: seq<string>,
                         markdownPreviews: seq<string>, codeExamples: seq<string>)
    ensures var doc := GenerateTemplate(cfg, timestamp, fileTree, markdownPreviews, codeExamples);
      && Contains(doc, StructureSection(fileTree))
      && EndsWith(doc, ExamplesSections(markdownPreviews, codeExamples))
  {
    var lead := TemplateLead(cfg, timestamp);
    var structure := StructureSection(fileTree);
    var examples := ExamplesSections(markdownPreviews, codeExamples);
    TemplateShape(cfg, timestamp, fileTree, markdownPreviews, codeExamples);
    var doc := lead + structure + "\n" + examples;
    assert doc[|lead|..|lead| + |structure|] == structure;
    assert OccursAt(doc, structure, |lead|);
    assert (lead + structure + "\n") + examples == doc;
  }

  /** The three parts the template is filled with. */
  datatype Parts = Parts(fileTree: seq<string>, markdownPreviews: seq<string>, codeExamples: seq<string>)

  /**
    The walk, the two samplers and the formatters, run in the generator's
    order on one project snapshot. The run fails exactly when the content
    directory cannot be listed. Otherwise every tree line lies within the
    depth bound and names an entry that is not ignored, there are at most
    `maxContentPreviews` markdown previews, and at most one code example per
    configured showcase file.
   */
  function BlueprintParts(cfg: Config, root: Node, pathExists: seq<string> -> bool): (r: Option<Parts>)
    requires root.Dir?
    ensures r.Some? <==> ReadDir(root, cfg.contentDirectory).Some?
    ensures r.Some? ==>
      && (forall line :: line in r.value.fileTree ==> LineWithin(cfg, line, 0))
      && |r.value.markdownPreviews| <= cfg.maxContentPreviews
      && |r.value.codeExamples| <= |cfg.showcaseFiles|
    ensures r.Some? ==> r.value.fileTree == GenerateDirectoryTree(cfg, root.children, 0)
    ensures r.Some? ==>
      var samples := GetMarkdownContent(cfg, root).value;
      && |r.value.markdownPreviews| == |samples|
      && forall i :: 0 <= i < |samples| ==> r.value.markdownPreviews[i] == FormatMarkdownPreview(samples[i])
    ensures r.Some? ==>
      var code := GetCodeContent(cfg, root, pathExists);
      && |r.value.codeExamples| == |code|
      && forall i :: 0 <= i < |code| ==> r.value.codeExamples[i] == FormatCodeContent(cfg, code[i])
  {
    var fileTree := GenerateDirectoryTree(cfg, root.children, 0);
    match GetMarkdownContent(cfg, root)
    case None => None
    case Some(samples) =>
      var code := GetCodeContent(cfg, root, pathExists);
      TreeLinesWithin(cfg, root.children, 0);
      SubseqElements(Names(code), cfg.showcaseFiles);
      Some(Parts(
        fileTree,
        Map(samples, FormatMarkdownPreview),
        Map(code, (c: CodeSample) => FormatCodeContent(cfg, c))))
  }

  /**
    `generateBlueprintDocument`: the template filled with the parts; `None`
    stands for the unhandled error of listing a missing content directory.
   */
  function GenerateBlueprintDocument(cfg: Config, root: Node, pathExists: seq<string> -> bool, timestamp: string): (r: Option<string>)
    requires root.Dir?
    ensures r.Some? <==> ReadDir(root, cfg.contentDirectory).Some?
    ensures r.Some? ==>
      var parts := BlueprintParts(cfg, root, pathExists).value;
      r.value == GenerateTemplate(cfg, timestamp, parts.fileTree, parts.markdownPreviews, parts.codeExamples)
  {
    match BlueprintParts(cfg, root, pathExists)
    case None => None
    case Some(parts) => Some(GenerateTemplate(cfg, timestamp, parts.fileTree, parts.markdownPreviews, parts.codeExamples))
  }

  /**
    Running the generator twice on an unchanged project gives the same
    outcome, and documents that differ only in the timestamp.
   */
  lemma BlueprintVariesOnlyInTimestamp(cfg: Config, root: Node, pathExists: seq<string> -> bool, t1: string, t2: string)
    requires root.Dir?
    ensures GenerateBlueprintDocument(cfg, root, pathExists, t1).Some? == GenerateBlueprintDocument(cfg, root, pathExists, t2).Some?
    ensures GenerateBlueprintDocument(cfg, root, pathExists, t1).Some? ==>
      var d1 := GenerateBlueprintDocument(cfg, root, pathExists, t1).value;
      var d2 := GenerateBlueprintDocument(cfg, root, pathExists, t2).value;
      var k := |TitleAndStampLead|;
      && k + |t1| <= |d1| && k + |t2| <= |d2|
      && d1[..k] == d2[..k]
      && d1[k..k + |t1|] == t1
      && d1[k + |t1|..] == d2[k + |t2|..]
  {
    var parts := BlueprintParts(cfg, root, pathExists);
    if parts.Some? {
      TemplateVariesOnlyInTimestamp(cfg, t1, t2, parts.value.fileTree, parts.value.markdownPreviews, parts.value.codeExamples);
    }
  }
}
