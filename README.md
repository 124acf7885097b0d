# Blueprint generator, modelled in Dafny

This project models the blueprint generator of an Astro + MDX site
(`generate-blueprint.mjs`). The generator walks the project directory, samples
a few markdown and configuration files, and fills a fixed Markdown template
that summarises the project's structure.

The file system becomes a value. A project snapshot is a tree of
`FileSystem.Node`s: `File(name, content)` or `Dir(name, children)`. The order
of `children` is the platform's listing order. A file whose `content` is
`None` cannot be read. Reading a directory also fails. Everything else is
pure functions over that snapshot:

- `Config`: the options table. `Config.Blueprint` holds the shipped values; what they mean for the rest is stated where they are used (`FileSystem.ContentDirectorySegments`, `FileSystem.IndexPageSegments`, `FileSystem.LogPatternIsLiteral`, `Formatting.ShowcaseLanguages`).
- `FileSystem`: the ignore filter, path segments and lookup, and the reads.
  The reads are `readdirSync`, `readFileSync`, and `safelyReadFile`'s
  collapse of every failure to `""`.
- `TreeGeneration`: the depth-limited pre-order tree, with the lemmas
  about it. The lemmas cover the depth bound, the ignore filter, order,
  one line per file, and ignored subtrees never being entered.
- `ContentHandlers`: the markdown sampler and the showcase sampler.
- `Formatting`: the markdown preview block, the code block, and the language label.
- `DocumentGeneration`: the template, the assembly of the whole document,
  and the fact that two runs differ only in the timestamp.
- `Seqs`, `Text`: the JavaScript array and string operations the code chains
  together (`filter`, `map`, `slice`, `includes`, `endsWith`, `repeat`,
  `split`, `join`), with the split/join round trips.

The existence check in `getCodeContent` runs after the read, so it is a
separate parameter, `pathExists`. It may disagree with the snapshot the read
saw. `ContentHandlers.ExistsCheckRedundantOnOneSnapshot` shows that when the
two agree, the check never drops a file.

Where the options table and the code differ, the model follows the code. The
table declares `maxContentLines: 10`, but `formatMarkdownPreview` keeps a
literal 5 lines, and no code reads `maxContentLines`. `Formatting.PreviewLineCount` is 5.

## Model

| member | source | states |
|---|---|---|
| `Seqs.Filter` | generate-blueprint.mjs:89 | `filter` keeps an order-preserving subsequence holding exactly the elements that pass |
| `Seqs.FilterCount` | generate-blueprint.mjs:89 | `filter` keeps each passing element as many times as it occurs, and no copy of the others |
| `Seqs.Map` | generate-blueprint.mjs:76-79 | `map` keeps the length and puts f of the i-th element at index i |
| `Seqs.MapCount` | generate-blueprint.mjs:83-88 | a map that sends no other element to f(x) gives f(x) exactly as often as x occurs |
| `Seqs.Take` | generate-blueprint.mjs:75 | `slice(0, n)` is the prefix of length min(n, length) |
| `Text.Contains` | generate-blueprint.mjs:33 | `includes` is a literal substring test: true exactly when the pattern occurs at some index |
| `Text.Split` | generate-blueprint.mjs:94 | `split('\n')` gives at least one piece, no piece holds the separator, and joining the pieces gives the input back |
| `Text.SplitJoin` | generate-blueprint.mjs:106-109 | splitting the join of separator-free lines gives those lines back (the other round trip) |
| `Text.TruncateLines` | generate-blueprint.mjs:106-109 | `split/slice/join` gives a prefix of the text whose lines are the first n lines; a text of at most n lines comes back unchanged |
| `Text.Repeat` | generate-blueprint.mjs:45 | `repeat` gives n copies of the unit in order: n times the unit's length, starting with the unit, every character equal to the one a unit's length earlier |
| `Text.EndsWith` | generate-blueprint.mjs:30 | `endsWith` is true exactly when the string is some stem followed by the suffix |
| `Text.Join` | generate-blueprint.mjs:139 | `join` of the empty list is `""` (the non-empty cases are the four rows below) |
| `Text.JoinSingle` | generate-blueprint.mjs:143 | a one-piece list joins to that piece, for any separator |
| `Text.JoinCons` | generate-blueprint.mjs:143 | a list of two or more pieces joins to its first piece, the separator, then the join of the rest, for any separator |
| `Text.JoinFirst` | generate-blueprint.mjs:143 | a non-empty list's join starts with its first piece |
| `Text.JoinLast` | generate-blueprint.mjs:146 | a non-empty list's join ends with its last piece |
| `Text.JoinPrefix` | generate-blueprint.mjs:94 | joining the first k pieces gives a prefix of the join of all of them |
| `Text.SplitAppend` | generate-blueprint.mjs:94 | the pieces of `a + sep + b` are the pieces of `a` followed by the pieces of `b` |
| `FileSystem.MatchesSomePattern` | generate-blueprint.mjs:33 | `some` over the ignore patterns: true exactly when one of them occurs in the name |
| `FileSystem.ShouldBeIgnored` | generate-blueprint.mjs:31-33 | a name is ignored iff it equals an ignored directory name or contains an ignored-file pattern literally |
| `FileSystem.LogPatternIsLiteral` | generate-blueprint.mjs:14 | with the shipped table `x.log` is kept and `a*.log` is ignored: no glob matching |
| `FileSystem.EnvPatternMatchesInside` | generate-blueprint.mjs:14 | the `.env` pattern also drops `.env.local` |
| `FileSystem.IsDirectory` | generate-blueprint.mjs:29 | true exactly for a directory entry, whatever its children |
| `FileSystem.DirectoryReadsEmpty` | generate-blueprint.mjs:35-41 | reading a directory as a file fails, so its safe read is `""` and a showcase path naming a directory is dropped |
| `FileSystem.IsMarkdownFile` | generate-blueprint.mjs:30 | true exactly when the name is some stem followed by `.md` |
| `FileSystem.Segments` | generate-blueprint.mjs:25-26 | a resolved path has no empty, `.` or slash-holding segment |
| `FileSystem.SegmentsOfName` | generate-blueprint.mjs:25-26 | a name without `/` resolves to itself, or to no segment when it is empty or `.` |
| `FileSystem.SegmentsJoin` | generate-blueprint.mjs:25-26 | joining two paths with `/` concatenates their segments, in order |
| `FileSystem.SegmentsDotSlash` | generate-blueprint.mjs:18 | a leading `./` adds no segment |
| `FileSystem.ContentDirectorySegments` | generate-blueprint.mjs:8 | the shipped content directory resolves to `src`, `content` |
| `FileSystem.IndexPageSegments` | generate-blueprint.mjs:18 | the shipped `./src/pages/index.astro` resolves to `src`, `pages`, `index.astro` |
| `FileSystem.ReadDir` | generate-blueprint.mjs:72-73 | listing succeeds exactly when the path leads to a directory, and then gives that directory's children in listing order |
| `FileSystem.ReadFile` | generate-blueprint.mjs:37 | a read succeeds only when the path leads to a file, and on a file gives exactly its content (failing when the file is unreadable) |
| `FileSystem.ChildOfListed` | generate-blueprint.mjs:57 | in a listing with distinct names, looking a listed entry up by its name finds that entry |
| `FileSystem.LookupStep` | generate-blueprint.mjs:57 | one more path segment steps from the directory reached into its child of that name |
| `FileSystem.JoinedPathReadsListedEntry` | generate-blueprint.mjs:78 | in a well-formed tree, reading `dir/name` for a listed entry reads that very entry |
| `FileSystem.SafelyRead` | generate-blueprint.mjs:35-41 | every read failure becomes `""`; a successful read passes through unchanged |
| `TreeGeneration.CreateTreeEntry` | generate-blueprint.mjs:44-48 | the line reads back into exactly the name, depth and kind it was made from, with 2·depth leading spaces |
| `TreeGeneration.IndentIsSpaces` | generate-blueprint.mjs:45 | the indentation for `depth` levels is exactly 2·depth spaces |
| `TreeGeneration.Visible` | generate-blueprint.mjs:55 | exactly the entries whose names are not ignored, each as often as listed, in listing order |
| `TreeGeneration.GenerateDirectoryTree` | generate-blueprint.mjs:50-67 | at most one line per entry of the listing and its subtrees |
| `TreeGeneration.EntriesLines` | generate-blueprint.mjs:56-66 | the `flatMap` gives at most one line per entry below |
| `TreeGeneration.EntryLines` | generate-blueprint.mjs:56-66 | one entry gives its own line plus at most one line per descendant |
| `TreeGeneration.TreeLinesWithin` | generate-blueprint.mjs:50-62 | every line is indented 2·d spaces with depth ≤ d ≤ maxDirectoryDepth and names a non-ignored entry; the tree is empty past the maximum depth |
| `TreeGeneration.EntriesLinesWithin` | generate-blueprint.mjs:56-66 | the same bound for the lines of a filtered listing |
| `TreeGeneration.EntryLinesWithin` | generate-blueprint.mjs:56-66 | the same bound for the lines of one visible entry |
| `TreeGeneration.EntriesLinesAppend` | generate-blueprint.mjs:56-66 | `flatMap` over a concatenation is the concatenation of the results |
| `TreeGeneration.TreeAppend` | generate-blueprint.mjs:53-66 | entries appear in listing order: the tree of `a + b` is the tree of `a` then the tree of `b` |
| `TreeGeneration.TreeSingleEntry` | generate-blueprint.mjs:51-66 | pre-order: a file gives exactly one line; a directory gives its line immediately followed by its children one level deeper; an ignored entry or one past the depth limit gives nothing |
| `TreeGeneration.Prune` | generate-blueprint.mjs:55-62 | the listing with ignored entries removed at every level has no ignored entry anywhere |
| `TreeGeneration.PruneAll` | generate-blueprint.mjs:55-62 | pruning below filtered entries keeps their names and kinds |
| `TreeGeneration.PruneNode` | generate-blueprint.mjs:55-62 | pruning an entry keeps its name and kind, and leaves no ignored entry below it |
| `TreeGeneration.TreeOfPruned` | generate-blueprint.mjs:55-62 | the tree equals the tree of the pruned listing: no ignored entry and no descendant of one ever shows |
| `TreeGeneration.EntriesLinesOfPruned` | generate-blueprint.mjs:56-66 | the same for the lines of a filtered listing |
| `TreeGeneration.EntryLinesOfPruned` | generate-blueprint.mjs:56-66 | the same for the lines of one entry |
| `ContentHandlers.MarkdownEntries` | generate-blueprint.mjs:74 | the `.md` entries form an order-preserving subsequence of the listing holding every such entry and no other, each as often as listed |
| `ContentHandlers.GetMarkdownContent` | generate-blueprint.mjs:70-80 | fails iff the content directory cannot be listed; otherwise gives the first `min(maxContentPreviews, #md)` markdown entries in order, names ending in `.md`, content read safely (`""` when unreadable) |
| `ContentHandlers.MarkdownContentByJoinedPath` | generate-blueprint.mjs:76-79 | in a well-formed tree each sample's content is the safe read of `path.join(contentDirectory, name)` |
| `ContentHandlers.CandidatesCover` | generate-blueprint.mjs:83-88 | the mapped showcase list has the configured names in order, one candidate per path |
| `ContentHandlers.CandidatesCount` | generate-blueprint.mjs:83-88 | a path listed k times gives its candidate k times |
| `ContentHandlers.GetCodeContent` | generate-blueprint.mjs:82-90 | names kept are an order-preserving subsequence of `showcaseFiles`; a path is kept iff it reads to non-empty text and its path exists, as many times as it is configured |
| `ContentHandlers.ExistsCheckRedundantOnOneSnapshot` | generate-blueprint.mjs:89 | when existence is judged on the snapshot the read saw, a file is kept iff it reads to non-empty text |
| `Formatting.FormatMarkdownPreview` | generate-blueprint.mjs:93-96 | starts with `### name` and the fence; always ends with `...` and the closing fence; the body is a prefix of the content made of its first ≤ 5 lines, and all of it when it has ≤ 5 |
| `Formatting.DetectCodeLanguage` | generate-blueprint.mjs:98-103 | `json` for `.json`, `toml` for `.toml` (unless `.json`), `javascript` otherwise |
| `Formatting.ShowcaseLanguages` | generate-blueprint.mjs:15-20 | the shipped showcase files are labelled json, javascript, javascript, javascript |
| `Formatting.FormatCodeContent` | generate-blueprint.mjs:105-113 | heading and language fence, closing fence; the body is a prefix of the content made of its first `maxCodeLines` lines, reproduced verbatim when it has at most that many |
| `DocumentGeneration.GenerateTemplate` | generate-blueprint.mjs:128-147 | the document opens with the title and the timestamp and ends with a line break; its sections are placed by `TemplateSections` and its variation is confined to the timestamp by `TemplateVariesOnlyInTimestamp` |
| `DocumentGeneration.TemplateVariesOnlyInTimestamp` | generate-blueprint.mjs:128-147 | documents from the same parts agree except in the timestamp, which sits at a fixed offset |
| `DocumentGeneration.TemplateSections` | generate-blueprint.mjs:137-146 | the document holds the fenced tree section and ends with the code examples then the content examples, present even when empty |
| `DocumentGeneration.BlueprintParts` | generate-blueprint.mjs:151-154 | fails iff the content directory cannot be listed; otherwise the tree is the walk of the root's listing from depth 0, the previews are the markdown samples each formatted by `formatMarkdownPreview` in order, and the code examples are the kept showcase files each formatted by `formatCodeContent` in order; hence every tree line is within the depth bound and unignored, at most `maxContentPreviews` previews, at most one code example per showcase path |
| `DocumentGeneration.GenerateBlueprintDocument` | generate-blueprint.mjs:151-156 | a document is produced iff the content directory can be listed, and it is the template filled with the tree, the formatted previews and the formatted code examples |
| `DocumentGeneration.BlueprintVariesOnlyInTimestamp` | generate-blueprint.mjs:151-156 | two runs on an unchanged project have the same outcome and differ only in the timestamp |

## Left out

- Writing `BLUEPRINT.md` and the completion message (generate-blueprint.mjs:159-165). These are output only; the model stops at the document string.
- `getTimestamp` (generate-blueprint.mjs:116-126). The clock and the locale formatting are outside the model; the timestamp string is a parameter.
- FileSystem.Segments: `..` segments are taken as literal names rather than stepping up, and a leading `/` is read as relative to the project root rather than as an absolute path; no shipped path uses either. `fileURLToPath` and `path.dirname` (generate-blueprint.mjs:24) are not modelled: paths are relative to the project root.
- ContentHandlers.GetMarkdownContent: reads the listed entry itself instead of the path `path.join(contentPath, file)`. `ContentHandlers.MarkdownContentByJoinedPath` shows the two agree on a `FileSystem.WellFormed` tree (distinct entry names per directory, each a single path segment), which every real directory tree is; the other members do not need that assumption.
- GenerateDirectoryTree: does not model the error thrown when listing a subdirectory, or taking `statSync` on an entry, is denied. The snapshot's directories can always be listed.
- GenerateDirectoryTree: symbolic links and cycles are not modelled. A snapshot is a finite tree, so the walk ends even without the depth bound; the depth bound is modelled as written.
- The icons are two distinct characters (U+1F4C1, U+1F4C4); no other Unicode property is used. Strings are sequences of Unicode scalar values, not UTF-16 code units.
- `astro.config.mjs` has no logic; it appears only as a showcase file name.
