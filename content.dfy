/**
  Content handlers: the markdown files sampled from the content directory and
  the configured showcase files sampled for code examples.
 */
module ContentHandlers {
  import opened Seqs
  import opened Config
  import opened FileSystem

  /** A sampled markdown file: its name in the listing and its text. */
  datatype MarkdownSample = MarkdownSample(name: string, content: string)

  /** A sampled showcase file: its configured path, its text and the path it resolves to. */
  datatype CodeSample = CodeSample(name: string, content: string, path: seq<string>)

  /**
    The entries of a listing whose names end in `.md`: an order-preserving
    subsequence of the listing holding every such entry and no other.
   */
  function MarkdownEntries(listing: seq<Node>): (r: seq<Node>)
    ensures IsSubseq(r, listing)
    ensures forall n :: n in r <==> n in listing && IsMarkdownFile(n.name)
    ensures forall n :: multiset(r)[n] == if IsMarkdownFile(n.name) then multiset(listing)[n] else 0
  {
    var keep := (n: Node) => IsMarkdownFile(n.name);
    forall n ensures multiset(Filter(listing, keep))[n] == if IsMarkdownFile(n.name) then multiset(listing)[n] else 0 {
      FilterCount(listing, keep, n);
    }
    Filter(listing, keep)
  }

  /**
    `getMarkdownContent`: lists the content directory, which fails when it
    is missing or not a directory. Otherwise the samples are the first
    `maxContentPreviews` markdown entries in listing order, never more, each
    with the text a safe read of it gives: an unreadable file, or a
    directory whose name ends in `.md`, yields the empty string.
   */
  function GetMarkdownContent(cfg: Config, root: Node): (r: Option<seq<MarkdownSample>>)
    ensures r.Some? <==> ReadDir(root, cfg.contentDirectory).Some?
    ensures r.Some? ==>
      var entries := MarkdownEntries(ReadDir(root, cfg.contentDirectory).value);
      && |r.value| <= cfg.maxContentPreviews
      && |r.value| == Min(cfg.maxContentPreviews, |entries|)
      && forall i :: 0 <= i < |r.value| ==>
           && r.value[i].name == entries[i].name
           && IsMarkdownFile(r.value[i].name)
           && r.value[i].content == SafelyRead(ReadNode(entries[i]))
  {
    match ReadDir(root, cfg.contentDirectory)
    case None => None
    case Some(listing) =>
      var picked := Take(MarkdownEntries(listing), cfg.maxContentPreviews);
      assert forall i :: 0 <= i < |picked| ==> picked[i] in MarkdownEntries(listing);
      Some(seq(|picked|, i requires 0 <= i < |picked| =>
        MarkdownSample(picked[i].name, SafelyRead(ReadNode(picked[i])))))
  }

  /**
    In a well-formed tree, each sample's content is exactly what a safe read
    of `path.join(contentDirectory, name)` gives, as the source reads it.
   */
  lemma MarkdownContentByJoinedPath(cfg: Config, root: Node)
    requires WellFormed(root)
    requires GetMarkdownContent(cfg, root).Some?
    ensures var samples := GetMarkdownContent(cfg, root).value;
      forall i :: 0 <= i < |samples| ==>
        samples[i].content == SafelyRead(ReadFile(root, cfg.contentDirectory + "/" + samples[i].name))
  {
    var listing := ReadDir(root, cfg.contentDirectory).value;
    var entries := MarkdownEntries(listing);
    var samples := GetMarkdownContent(cfg, root).value;
    forall i | 0 <= i < |samples|
      ensures samples[i].content == SafelyRead(ReadFile(root, cfg.contentDirectory + "/" + samples[i].name))
    {
      assert entries[i] in entries;
      JoinedPathReadsListedEntry(root, cfg.contentDirectory, entries[i]);
    }
  }

  /** One showcase path before filtering: its name, what a safe read gives, its resolved path. */
  function ShowcaseCandidate(root: Node, file: string): CodeSample {
    CodeSample(file, SafelyRead(ReadFile(root, file)), Segments(file))
  }

  /** The configured path a sample was read from. */
  function SampleName(c: CodeSample): string {
    c.name
  }

  /** The configured paths of a list of samples, in order. */
  function Names(samples: seq<CodeSample>): seq<string> {
    Map(samples, SampleName)
  }

  /** The showcase paths mapped to their candidates, before filtering. */
  function Candidates(root: Node, files: seq<string>): seq<CodeSample> {
    Map(files, (file: string) => ShowcaseCandidate(root, file))
  }

  /** The mapped showcase list carries the configured paths in order, one candidate per path. */
  lemma CandidatesCover(root: Node, files: seq<string>)
    ensures Names(Candidates(root, files)) == files
    ensures forall f :: f in files ==> ShowcaseCandidate(root, f) in Candidates(root, files)
    ensures forall c :: c in Candidates(root, files) ==> c.name in files && c == ShowcaseCandidate(root, c.name)
  {
    var candidates := Candidates(root, files);
    forall f | f in files ensures ShowcaseCandidate(root, f) in candidates {
      var i :| 0 <= i < |files| && files[i] == f;
      assert candidates[i] == ShowcaseCandidate(root, f);
    }
    forall c | c in candidates ensures c.name in files && c == ShowcaseCandidate(root, c.name) {
      var i :| 0 <= i < |candidates| && candidates[i] == c;
    }
  }

  /** A path listed `k` times gives its candidate `k` times. */
  lemma CandidatesCount(root: Node, files: seq<string>, f: string)
    ensures multiset(Candidates(root, files))[ShowcaseCandidate(root, f)] == multiset(files)[f]
  {
    var candidate := (file: string) => ShowcaseCandidate(root, file);
    forall y | candidate(y) == candidate(f) ensures y == f {
      assert candidate(y).name == y;
    }
    MapCount(files, candidate, f);
  }

  /**
    `getCodeContent`: the showcase files, in configured order, that read to
    non-empty text and whose resolved path `pathExists` reports present. The
    existence check is a separate probe of the file system, made after the
    read. The names kept form an order-preserving subsequence of the
    configured list. Every kept file has non-empty content and an existing
    path. Every configured file that passes both checks is kept, so a missing,
    unreadable or empty file is exactly what is dropped.
   */
  function GetCodeContent(cfg: Config, root: Node, pathExists: seq<string> -> bool): (r: seq<CodeSample>)
    ensures IsSubseq(Names(r), cfg.showcaseFiles)
    ensures forall c :: c in r ==>
      c.name in cfg.showcaseFiles && c == ShowcaseCandidate(root, c.name) && c.content != "" && pathExists(c.path)
    ensures forall f :: f in cfg.showcaseFiles ==>
      (ShowcaseCandidate(root, f) in r <==> SafelyRead(ReadFile(root, f)) != "" && pathExists(Segments(f)))
    ensures forall f ::
      multiset(r)[ShowcaseCandidate(root, f)]
        == if SafelyRead(ReadFile(root, f)) != "" && pathExists(Segments(f)) then multiset(cfg.showcaseFiles)[f] else 0
  {
    var candidates := Candidates(root, cfg.showcaseFiles);
    var keep := (c: CodeSample) => c.content != "" && pathExists(c.path);
    var r := Filter(candidates, keep);
    CandidatesCover(root, cfg.showcaseFiles);
    forall f
      ensures multiset(r)[ShowcaseCandidate(root, f)]
        == if SafelyRead(ReadFile(root, f)) != "" && pathExists(Segments(f)) then multiset(cfg.showcaseFiles)[f] else 0
    {
      var c := ShowcaseCandidate(root, f);
      CandidatesCount(root, cfg.showcaseFiles, f);
      FilterCount(candidates, keep, c);
    }
    SubseqMap(r, candidates, SampleName);
    r
  }

  /**
    When the existence probe sees the same snapshot the read did, it never
    drops anything: a showcase file is kept exactly when it reads to
    non-empty text.
   */
  lemma ExistsCheckRedundantOnOneSnapshot(cfg: Config, root: Node, pathExists: seq<string> -> bool)
    requires forall p :: pathExists(p) <==> Lookup(root, p).Some?
    ensures forall f :: f in cfg.showcaseFiles ==>
      (ShowcaseCandidate(root, f) in GetCodeContent(cfg, root, pathExists) <==> SafelyRead(ReadFile(root, f)) != "")
  {
    forall f | f in cfg.showcaseFiles && SafelyRead(ReadFile(root, f)) != ""
      ensures pathExists(Segments(f))
    {
      assert ReadFile(root, f).Some?;
    }
  }
}
