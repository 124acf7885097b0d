/**
  Tree generation: the depth-limited, pre-order rendering of the project's
  directory listing, one line per entry that survives the ignore filter.
 */
module TreeGeneration {
  import opened Seqs
  import opened Text
  import opened Config
  import opened FileSystem

  const DirectoryIcon: char := '\U{1F4C1}'
  const FileIcon: char := '\U{1F4C4}'

  /** What a rendered tree line says: an entry's name, depth and kind. */
  datatype TreeLine = TreeLine(name: string, depth: nat, isDirectory: bool)

  /**
    Reads a rendered line back: an even number of leading spaces (two per
    level), an icon, one space, then the name.
   */
  function ParseTreeEntry(line: string): Option<TreeLine> {
    var k := LeadingSpaces(line);
    if k % 2 == 0 && k + 2 <= |line| && (line[k] == DirectoryIcon || line[k] == FileIcon) && line[k + 1] == ' '
    then Some(TreeLine(line[k + 2..], k / 2, line[k] == DirectoryIcon))
    else None
  }

  /**
    `createTreeEntry`: two spaces per level of depth, the directory or file
    icon, a space and the name. The line can be read back into exactly the
    name, depth and kind it was made from.
   */
  function CreateTreeEntry(name: string, depth: nat, isDirectory: bool): (line: string)
    ensures ParseTreeEntry(line) == Some(TreeLine(name, depth, isDirectory))
  {
    var indent := Repeat("  ", depth);
    var rest := [if isDirectory then DirectoryIcon else FileIcon] + " " + name;
    IndentIsSpaces(depth);
    LeadingSpacesBeforeText(indent, rest);
    assert (indent + rest)[2 * depth + 2..] == name;
    indent + rest
  }

  /** The indentation of `depth` levels is `2 * depth` spaces. */
  lemma IndentIsSpaces(depth: nat)
    ensures |Repeat("  ", depth)| == 2 * depth
    ensures forall i :: 0 <= i < |Repeat("  ", depth)| ==> Repeat("  ", depth)[i] == ' '
  {
    var indent := Repeat("  ", depth);
    forall i | 0 <= i < |indent| ensures indent[i] == ' ' {
      assert indent[i] in indent;
    }
  }

  /** Spaces followed by text that does not start with a space: exactly those spaces lead. */
  lemma {:induction false} LeadingSpacesBeforeText(spaces: string, text: string)
    requires forall i :: 0 <= i < |spaces| ==> spaces[i] == ' '
    requires text != [] && text[0] != ' '
    ensures LeadingSpaces(spaces + text) == |spaces|
  {
    if spaces != [] {
      assert (spaces + text)[1..] == spaces[1..] + text;
      LeadingSpacesBeforeText(spaces[1..], text);
    }
  }

  /**
    The entries of a listing that the ignore filter lets through: exactly
    the entries whose names are not ignored, each as often as listed, in
    listing order.
   */
  function Visible(cfg: Config, entries: seq<Node>): (r: seq<Node>)
    ensures IsSubseq(r, entries)
    ensures forall n :: n in r <==> n in entries && !ShouldBeIgnored(cfg, n.name)
    ensures forall n :: multiset(r)[n] == if ShouldBeIgnored(cfg, n.name) then 0 else multiset(entries)[n]
    ensures ForestSize(r) <= ForestSize(entries)
  {
    var keep := (n: Node) => !ShouldBeIgnored(cfg, n.name);
    ForestSizeFilter(entries, keep);
    forall n ensures multiset(Filter(entries, keep))[n] == if ShouldBeIgnored(cfg, n.name) then 0 else multiset(entries)[n] {
      FilterCount(entries, keep, n);
    }
    Filter(entries, keep)
  }

  /**
    `generateDirectoryTree` on the listing of one directory: nothing below
    the maximum depth; otherwise the visible entries, each followed by its
    own subtree. There is at most one line per entry of the listing.
   */
  function GenerateDirectoryTree(cfg: Config, entries: seq<Node>, depth: nat): (lines: seq<string>)
    ensures |lines| <= ForestSize(entries)
    decreases ForestSize(entries), 2
  {
    if depth > cfg.maxDirectoryDepth then []
    else EntriesLines(cfg, Visible(cfg, entries), depth)
  }

  /** The `flatMap` over the visible entries of a listing. */
  function EntriesLines(cfg: Config, entries: seq<Node>, depth: nat): (lines: seq<string>)
    ensures |lines| <= ForestSize(entries)
    decreases ForestSize(entries), 1
  {
    if entries == [] then []
    else EntryLines(cfg, entries[0], depth) + EntriesLines(cfg, entries[1..], depth)
  }

  /** The lines of one visible entry: its own line, then its subtree when it is a directory. */
  function EntryLines(cfg: Config, entry: Node, depth: nat): (lines: seq<string>)
    ensures 1 <= |lines| <= NodeSize(entry)
    decreases NodeSize(entry), 0
  {
    [CreateTreeEntry(entry.name, depth, IsDirectory(entry))]
      + (if IsDirectory(entry) then GenerateDirectoryTree(cfg, entry.children, depth + 1) else [])
  }

  /**
    A line rendered at `depth` or below: it reads back as an entry whose
    depth lies between `depth` and the maximum depth, so it starts with
    exactly twice that many spaces, and whose name is not ignored.
   */
  predicate LineWithin(cfg: Config, line: string, depth: nat) {
    && ParseTreeEntry(line).Some?
    && depth <= ParseTreeEntry(line).value.depth <= cfg.maxDirectoryDepth
    && LeadingSpaces(line) == 2 * ParseTreeEntry(line).value.depth
    && !ShouldBeIgnored(cfg, ParseTreeEntry(line).value.name)
  }

  /**
    Depth bound and ignore filter: every line of the tree is indented by
    `2 * d` spaces for some `d` between `depth` and the maximum depth, and
    names an entry that is not ignored. In particular the tree is empty when
    `depth` exceeds the maximum.
   */
  lemma {:induction false} TreeLinesWithin(cfg: Config, entries: seq<Node>, depth: nat)
    ensures forall line :: line in GenerateDirectoryTree(cfg, entries, depth) ==> LineWithin(cfg, line, depth)
    ensures depth > cfg.maxDirectoryDepth ==> GenerateDirectoryTree(cfg, entries, depth) == []
    decreases ForestSize(entries), 2
  {
    if depth <= cfg.maxDirectoryDepth {
      var visible := Visible(cfg, entries);
      forall i | 0 <= i < |visible| ensures !ShouldBeIgnored(cfg, visible[i].name) {
        assert visible[i] in visible;
      }
      EntriesLinesWithin(cfg, visible, depth);
    }
  }

  lemma {:induction false} EntriesLinesWithin(cfg: Config, entries: seq<Node>, depth: nat)
    requires depth <= cfg.maxDirectoryDepth
    requires forall i :: 0 <= i < |entries| ==> !ShouldBeIgnored(cfg, entries[i].name)
    ensures forall line :: line in EntriesLines(cfg, entries, depth) ==> LineWithin(cfg, line, depth)
    decreases ForestSize(entries), 1
  {
    if entries != [] {
      EntryLinesWithin(cfg, entries[0], depth);
      EntriesLinesWithin(cfg, entries[1..], depth);
    }
  }

  lemma {:induction false} EntryLinesWithin(cfg: Config, entry: Node, depth: nat)
    requires depth <= cfg.maxDirectoryDepth
    requires !ShouldBeIgnored(cfg, entry.name)
    ensures forall line :: line in EntryLines(cfg, entry, depth) ==> LineWithin(cfg, line, depth)
    decreases NodeSize(entry), 0
  {
    if IsDirectory(entry) {
      TreeLinesWithin(cfg, entry.children, depth + 1);
    }
  }

  /** The lines of a concatenated visible listing are the lines of its parts, in order. */
  lemma {:induction false} EntriesLinesAppend(cfg: Config, a: seq<Node>, b: seq<Node>, depth: nat)
    ensures EntriesLines(cfg, a + b, depth) == EntriesLines(cfg, a, depth) + EntriesLines(cfg, b, depth)
  {
    if a == [] {
      assert a + b == b;
    } else {
      assert (a + b)[1..] == a[1..] + b;
      EntriesLinesAppend(cfg, a[1..], b, depth);
    }
  }

  /**
    Listing order is kept: the tree of two consecutive runs of entries is the
    tree of the first run followed by the tree of the second.
   */
  lemma TreeAppend(cfg: Config, a: seq<Node>, b: seq<Node>, depth: nat)
    ensures GenerateDirectoryTree(cfg, a + b, depth)
         == GenerateDirectoryTree(cfg, a, depth) + GenerateDirectoryTree(cfg, b, depth)
  {
    var keep := (n: Node) => !ShouldBeIgnored(cfg, n.name);
    FilterAppend(a, b, keep);
    EntriesLinesAppend(cfg, Filter(a, keep), Filter(b, keep), depth);
  }

  /**
    Pre-order, one entry at a time: within the depth limit, a visible file
    contributes exactly its own line, a visible directory its own line
    immediately followed by the lines of its children one level deeper, and
    an ignored entry nothing at all, its subtree included.
   */
  lemma TreeSingleEntry(cfg: Config, entry: Node, depth: nat)
    ensures GenerateDirectoryTree(cfg, [entry], depth) ==
      if depth > cfg.maxDirectoryDepth || ShouldBeIgnored(cfg, entry.name) then []
      else if entry.Dir? then [CreateTreeEntry(entry.name, depth, true)] + GenerateDirectoryTree(cfg, entry.children, depth + 1)
      else [CreateTreeEntry(entry.name, depth, false)]
  {
    if depth <= cfg.maxDirectoryDepth && !ShouldBeIgnored(cfg, entry.name) {
      var visible := Visible(cfg, [entry]);
      assert visible == [entry] by {
        assert entry in visible;
        Seqs.SubseqElements(visible, [entry]);
      }
      assert EntriesLines(cfg, [entry], depth) == EntryLines(cfg, entry, depth) + EntriesLines(cfg, [], depth);
    } else if depth <= cfg.maxDirectoryDepth {
      var visible := Visible(cfg, [entry]);
      assert visible == [] by {
        Seqs.SubseqElements(visible, [entry]);
        assert entry !in visible;
      }
    }
  }

  /**
    The project with every ignored entry removed at every level, together
    with everything below it.
   */
  function Prune(cfg: Config, entries: seq<Node>): (r: seq<Node>)
    ensures AllowedTree(cfg, r)
    decreases ForestSize(entries), 2
  {
    var visible := Visible(cfg, entries);
    var r := PruneAll(cfg, visible);
    assert forall i :: 0 <= i < |visible| ==> visible[i] in visible;
    r
  }

  /** `Prune` below each entry of an already filtered listing; names and kinds are kept. */
  function PruneAll(cfg: Config, entries: seq<Node>): (r: seq<Node>)
    ensures |r| == |entries|
    ensures forall i :: 0 <= i < |r| ==> r[i].name == entries[i].name && r[i].Dir? == entries[i].Dir?
    ensures (forall i :: 0 <= i < |entries| ==> !ShouldBeIgnored(cfg, entries[i].name)) ==> AllowedTree(cfg, r)
    decreases ForestSize(entries), 1
  {
    if entries == [] then []
    else
      var r := [PruneNode(cfg, entries[0])] + PruneAll(cfg, entries[1..]);
      assert r[1..] == PruneAll(cfg, entries[1..]);
      r
  }

  function PruneNode(cfg: Config, entry: Node): (r: Node)
    ensures r.name == entry.name && r.Dir? == entry.Dir?
    ensures r.Dir? ==> AllowedTree(cfg, r.children)
    decreases NodeSize(entry), 0
  {
    match entry
    case File(_, _) => entry
    case Dir(name, children) => Dir(name, Prune(cfg, children))
  }

  /** No entry of the listing, at any level, has an ignored name. */
  predicate AllowedTree(cfg: Config, entries: seq<Node>)
    decreases entries
  {
    forall i :: 0 <= i < |entries| ==>
      !ShouldBeIgnored(cfg, entries[i].name) && (entries[i].Dir? ==> AllowedTree(cfg, entries[i].children))
  }

  /**
    Ignored subtrees are never looked into: the tree of a listing equals the
    tree of the same listing with every ignored entry and all of its
    descendants removed beforehand.
   */
  lemma {:induction false} TreeOfPruned(cfg: Config, entries: seq<Node>, depth: nat)
    ensures GenerateDirectoryTree(cfg, Prune(cfg, entries), depth) == GenerateDirectoryTree(cfg, entries, depth)
    decreases ForestSize(entries), 2
  {
    if depth <= cfg.maxDirectoryDepth {
      var visible := Visible(cfg, entries);
      var pruned := Prune(cfg, entries);
      var keep := (n: Node) => !ShouldBeIgnored(cfg, n.name);
      assert forall n :: n in pruned ==> keep(n) by {
        forall n | n in pruned ensures keep(n) {
          var i :| 0 <= i < |pruned| && pruned[i] == n;
        }
      }
      FilterKeepsAll(pruned, keep);
      EntriesLinesOfPruned(cfg, visible, depth);
    }
  }

  lemma {:induction false} EntriesLinesOfPruned(cfg: Config, entries: seq<Node>, depth: nat)
    ensures EntriesLines(cfg, PruneAll(cfg, entries), depth) == EntriesLines(cfg, entries, depth)
    decreases ForestSize(entries), 1
  {
    if entries != [] {
      var r := PruneAll(cfg, entries);
      assert r[0] == PruneNode(cfg, entries[0]) && r[1..] == PruneAll(cfg, entries[1..]);
      EntryLinesOfPruned(cfg, entries[0], depth);
      EntriesLinesOfPruned(cfg, entries[1..], depth);
    }
  }

  lemma {:induction false} EntryLinesOfPruned(cfg: Config, entry: Node, depth: nat)
    ensures EntryLines(cfg, PruneNode(cfg, entry), depth) == EntryLines(cfg, entry, depth)
    decreases NodeSize(entry), 0
  {
    if entry.Dir? {
      TreeOfPruned(cfg, entry.children, depth + 1);
    }
  }
}
