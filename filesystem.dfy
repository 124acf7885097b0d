/**
  The file-system helpers of the blueprint generator, over an abstract
  snapshot of the project instead of the real file system.

  A snapshot is a tree of `Node`s. The order of a directory's `children` is
  the order in which the platform lists them. A file whose `content` is
  `None` is one whose read fails (permission denied, vanished, ...); a file
  whose bytes are not valid UTF-8 is `Some` of its decoded text, replacement
  characters included. Reading a directory fails too.
 */
module FileSystem {
  import opened Seqs
  import opened Text
  import opened Config

  datatype Option<T> = None | Some(value: T)

  datatype Node =
    | File(name: string, content: Option<string>)
    | Dir(name: string, children: seq<Node>)

  /** The number of entries in a subtree, the entry itself included. */
  function NodeSize(n: Node): (size: nat)
    ensures size >= 1
  {
    match n
    case File(_, _) => 1
    case Dir(_, children) => 1 + ForestSize(children)
  }

  /** The number of entries in a listing and in everything below it. */
  function ForestSize(entries: seq<Node>): (size: nat)
    ensures size >= |entries|
  {
    if entries == [] then 0 else NodeSize(entries[0]) + ForestSize(entries[1..])
  }

  /** Dropping entries from a listing never makes it larger. */
  lemma {:induction false} ForestSizeFilter(entries: seq<Node>, keep: Node -> bool)
    ensures ForestSize(Filter(entries, keep)) <= ForestSize(entries)
  {
    if entries != [] {
      ForestSizeFilter(entries[1..], keep);
      if keep(entries[0]) {
        assert ([entries[0]] + Filter(entries[1..], keep))[1..] == Filter(entries[1..], keep);
      }
    }
  }

  /**
    A real directory tree: inside every directory the entry names are
    distinct, and each is a single path segment (not empty, not `.`, no `/`).
   */
  predicate WellFormed(n: Node) {
    n.Dir? ==>
      && UniqueNames(n.children)
      && forall i :: 0 <= i < |n.children| ==> IsSegment(n.children[i].name) && WellFormed(n.children[i])
  }

  /** A name that `path.resolve` keeps as one segment of its own. */
  predicate IsSegment(name: string) {
    name != "" && name != "." && '/' !in name
  }

  /** No two entries of the listing share a name. */
  predicate UniqueNames(entries: seq<Node>) {
    forall i, j :: 0 <= i < j < |entries| ==> entries[i].name != entries[j].name
  }

  /**
    `isDirectory`: what `statSync(path).isDirectory()` reports for an entry:
    true exactly for a directory, whatever its children.
   */
  function IsDirectory(n: Node): (r: bool)
    ensures r <==> exists children :: n == Dir(n.name, children)
  {
    assert n.Dir? ==> n == Dir(n.name, n.children);
    n.Dir?
  }

  /**
    A directory cannot be read as a file: `readFileSync` on it fails, so a
    safe read of it gives the empty string.
   */
  lemma DirectoryReadsEmpty(n: Node)
    requires IsDirectory(n)
    ensures ReadNode(n).None? && SafelyRead(ReadNode(n)) == ""
  {
    var children :| n == Dir(n.name, children);
  }

  /** `isMarkdownFile`: the name is some stem followed by `.md`. */
  function IsMarkdownFile(name: string): (r: bool)
    ensures r <==> exists stem :: stem + ".md" == name
  {
    EndsWith(name, ".md")
  }

  /** JavaScript's `patterns.some(pattern => name.includes(pattern))`. */
  function MatchesSomePattern(patterns: seq<string>, name: string): (r: bool)
    ensures r <==> exists i :: 0 <= i < |patterns| && Contains(name, patterns[i])
  {
    if patterns == [] then false
    else Contains(name, patterns[0]) || MatchesSomePattern(patterns[1..], name)
  }

  /**
    `shouldBeIgnored`: a name is ignored exactly when it is one of the ignored
    directory names, or when one of the ignored-file patterns occurs in it as
    a literal substring (no glob matching).
   */
  function ShouldBeIgnored(cfg: Config, name: string): (r: bool)
    ensures r <==> name in cfg.ignoreDirectories || exists i :: 0 <= i < |cfg.ignoreFiles| && Contains(name, cfg.ignoreFiles[i])
  {
    name in cfg.ignoreDirectories || MatchesSomePattern(cfg.ignoreFiles, name)
  }

  /**
    The pattern `*.log` is compared literally: an ordinary log file name is
    kept, while a name holding the characters `*.log` is dropped.
   */
  lemma LogPatternIsLiteral()
    ensures !ShouldBeIgnored(Blueprint, "x.log")
    ensures ShouldBeIgnored(Blueprint, "a*.log")
  {
    assert OccursAt("a*.log", "*.log", 1);
    forall i | 0 <= i < |Blueprint.ignoreFiles|
      ensures !Contains("x.log", Blueprint.ignoreFiles[i])
    {
      if i == 1 {
        MissingCharacter("x.log", ".env", 1);
      } else if i == 2 {
        MissingCharacter("x.log", "*.log", 0);
      }
    }
  }

  /** Ignored-file patterns match anywhere in a name: `.env` drops `.env.local`. */
  lemma EnvPatternMatchesInside()
    ensures ShouldBeIgnored(Blueprint, ".env.local")
  {
    assert OccursAt(".env.local", ".env", 0);
  }

  /**
    The path segments a relative path resolves to below the project root:
    the pieces between `/` separators, with empty and `.` pieces dropped.
   */
  function Segments(path: string): (segs: seq<string>)
    ensures forall i :: 0 <= i < |segs| ==> IsSegment(segs[i])
  {
    var pieces := Split(path, '/');
    var segs := Filter(pieces, IsSegment);
    assert forall i :: 0 <= i < |segs| ==> segs[i] in segs;
    segs
  }

  /** A name without `/` resolves to itself, or to nothing when it is empty or `.`. */
  lemma SegmentsOfName(name: string)
    requires '/' !in name
    ensures Segments(name) == if IsSegment(name) then [name] else []
  {
    SplitWithoutSeparator(name, '/');
    assert Split(name, '/')[1..] == [];
  }

  /** Joining two paths with `/` concatenates their segments. */
  lemma SegmentsJoin(a: string, b: string)
    ensures Segments(a + "/" + b) == Segments(a) + Segments(b)
  {
    SplitAppend(a, b, '/');
    FilterAppend(Split(a, '/'), Split(b, '/'), IsSegment);
  }

  /** A leading segment followed by `/` resolves to itself before the rest. */
  lemma SegmentsCons(head: string, rest: string)
    requires IsSegment(head)
    ensures Segments(head + "/" + rest) == [head] + Segments(rest)
  {
    SegmentsOfName(head);
    SegmentsJoin(head, rest);
  }

  /** A leading `./` adds no segment. */
  lemma SegmentsDotSlash(rest: string)
    ensures Segments("./" + rest) == Segments(rest)
  {
    SegmentsOfName(".");
    assert "./" + rest == "." + "/" + rest;
    SegmentsJoin(".", rest);
  }

  /** Two segments joined by `/` resolve to those two segments. */
  lemma SegmentsOfPair(a: string, b: string)
    requires IsSegment(a) && IsSegment(b)
    ensures Segments(a + "/" + b) == [a, b]
  {
    SegmentsCons(a, b);
    SegmentsOfName(b);
  }

  /** `./a/b/c` resolves to the three segments `a`, `b`, `c`. */
  lemma SegmentsOfDotTriple(a: string, b: string, c: string)
    requires IsSegment(a) && IsSegment(b) && IsSegment(c)
    ensures Segments("./" + (a + "/" + (b + "/" + c))) == [a, b, c]
  {
    SegmentsDotSlash(a + "/" + (b + "/" + c));
    SegmentsCons(a, b + "/" + c);
    SegmentsOfPair(b, c);
  }

  /** The shipped content directory resolves to `src` then `content`. */
  lemma ContentDirectorySegments()
    ensures Segments(Blueprint.contentDirectory) == ["src", "content"]
  {
    assert Blueprint.contentDirectory == "src" + "/" + "content";
    SegmentsOfPair("src", "content");
  }

  /** The `./` in front of a shipped showcase path adds no segment. */
  lemma IndexPageSegments()
    ensures Segments(Blueprint.showcaseFiles[2]) == ["src", "pages", "index.astro"]
  {
    assert Blueprint.showcaseFiles[2] == "./" + ("src" + "/" + ("pages" + "/" + "index.astro"));
    SegmentsOfDotTriple("src", "pages", "index.astro");
  }

  /** The first entry of a listing with the given name. */
  function Child(entries: seq<Node>, name: string): (r: Option<Node>)
    ensures r.Some? ==> r.value in entries && r.value.name == name
    ensures r.None? ==> forall n :: n in entries ==> n.name != name
  {
    if entries == [] then None
    else if entries[0].name == name then Some(entries[0])
    else Child(entries[1..], name)
  }

  /** The entry at a path of segments below `n`; `None` when no such entry exists. */
  function Lookup(n: Node, segs: seq<string>): Option<Node>
    decreases |segs|
  {
    if segs == [] then Some(n)
    else match n
      case File(_, _) => None
      case Dir(_, children) =>
        match Child(children, segs[0])
        case None => None
        case Some(c) => Lookup(c, segs[1..])
  }

  /** In a listing with distinct names, looking a listed entry up by its name finds it. */
  lemma {:induction false} ChildOfListed(entries: seq<Node>, n: Node)
    requires UniqueNames(entries) && n in entries
    ensures Child(entries, n.name) == Some(n)
  {
    if entries[0] != n {
      assert entries[0].name != n.name by {
        var j :| 0 <= j < |entries| && entries[j] == n;
      }
      ChildOfListed(entries[1..], n);
    }
  }

  /** One more segment steps from the directory reached so far into its child of that name. */
  lemma {:induction false} LookupStep(n: Node, segs: seq<string>, name: string)
    requires Lookup(n, segs).Some? && Lookup(n, segs).value.Dir?
    ensures Lookup(n, segs + [name]) == Child(Lookup(n, segs).value.children, name)
    decreases |segs|
  {
    if segs != [] {
      assert (segs + [name])[1..] == segs[1..] + [name];
      LookupStep(Child(n.children, segs[0]).value, segs[1..], name);
    }
  }

  /** Everything reached from a well-formed tree is well-formed. */
  lemma {:induction false} LookupWellFormed(n: Node, segs: seq<string>)
    requires WellFormed(n) && Lookup(n, segs).Some?
    ensures WellFormed(Lookup(n, segs).value)
    decreases |segs|
  {
    if segs != [] {
      var c := Child(n.children, segs[0]).value;
      var j :| 0 <= j < |n.children| && n.children[j] == c;
      LookupWellFormed(c, segs[1..]);
    }
  }

  /**
    `path.join(dir, name)` on a listed entry reaches that very entry: in a
    well-formed tree, reading `dir + "/" + name` reads the entry the listing
    of `dir` returned under `name`.
   */
  lemma JoinedPathReadsListedEntry(root: Node, dir: string, entry: Node)
    requires WellFormed(root)
    requires ReadDir(root, dir).Some? && entry in ReadDir(root, dir).value
    ensures ReadFile(root, dir + "/" + entry.name) == ReadNode(entry)
  {
    var segs := Segments(dir);
    var d := Lookup(root, segs).value;
    LookupWellFormed(root, segs);
    var j :| 0 <= j < |d.children| && d.children[j] == entry;
    assert IsSegment(entry.name);
    SegmentsJoin(dir, entry.name);
    SegmentsOfName(entry.name);
    LookupStep(root, segs, entry.name);
    ChildOfListed(d.children, entry);
  }

  /**
    `readdirSync`: the listing of the directory at `path`; `None` stands for
    the error it throws when the path is missing or is not a directory.
   */
  function ReadDir(root: Node, path: string): (r: Option<seq<Node>>)
    ensures r.Some? <==> Lookup(root, Segments(path)).Some? && Lookup(root, Segments(path)).value.Dir?
    ensures r.Some? ==> r.value == Lookup(root, Segments(path)).value.children
  {
    match Lookup(root, Segments(path))
    case Some(Dir(_, children)) => Some(children)
    case _ => None
  }

  /** `readFileSync` on an entry already resolved: a directory or an unreadable file fails. */
  function ReadNode(n: Node): Option<string> {
    match n
    case File(_, content) => content
    case Dir(_, _) => None
  }

  /** `readFileSync` on a path: a missing entry fails like an unreadable one. */
  function ReadFile(root: Node, path: string): (r: Option<string>)
    ensures r.Some? ==> Lookup(root, Segments(path)).Some? && Lookup(root, Segments(path)).value.File?
    ensures Lookup(root, Segments(path)).Some? && Lookup(root, Segments(path)).value.File? ==>
      r == Lookup(root, Segments(path)).value.content
  {
    match Lookup(root, Segments(path))
    case None => None
    case Some(n) => ReadNode(n)
  }

  /**
    `safelyReadFile`: the try/catch around a read, made explicit. Every
    failure becomes the empty string, so an unreadable file and an empty file
    look alike; a successful read is passed through unchanged.
   */
  function SafelyRead(attempt: Option<string>): (text: string)
    ensures attempt.None? ==> text == ""
    ensures attempt.Some? ==> text == attempt.value
  {
    match attempt
    case None => ""
    case Some(content) => content
  }
}
