/**
  The JavaScript string operations the blueprint generator relies on, over
  `string` (a sequence of characters): `includes`, `endsWith`, `repeat`,
  `split` on one separator character, `join`, and the line truncation
  `split('\n').slice(0, n).join('\n')` used by both formatters.
 */
module Text {
  import opened Seqs

  /**
    `s.repeat(n)`: `n` copies of `s` back to back. The result starts with
    `s` (when `n > 0`) and repeats with period `|s|`: every character equals
    the one `|s|` positions before it.
   */
  function Repeat(s: string, n: nat): (r: string)
    ensures |r| == n * |s|
    ensures forall c :: c in r ==> c in s
    ensures n > 0 ==> r[..|s|] == s
    ensures forall i :: |s| <= i < |r| ==> r[i] == r[i - |s|]
  {
    if n == 0 then ""
    else
      var rest := Repeat(s, n - 1);
      var r := s + rest;
      forall i | |s| <= i < |r| ensures r[i] == r[i - |s|] {
        if i - |s| >= |s| {
          assert rest[i - |s|] == rest[i - |s| - |s|];
        }
      }
      r
  }

  /** The number of space characters a string starts with. */
  function LeadingSpaces(s: string): (k: nat)
    ensures k <= |s|
    ensures forall i :: 0 <= i < k ==> s[i] == ' '
    ensures k < |s| ==> s[k] != ' '
  {
    if s != [] && s[0] == ' ' then 1 + LeadingSpaces(s[1..]) else 0
  }

  /** `s.endsWith(suffix)`: `s` is some string followed by `suffix`. */
  function EndsWith(s: string, suffix: string): (r: bool)
    ensures r <==> exists stem :: stem + suffix == s
  {
    SuffixStem(s, suffix);
    |suffix| <= |s| && s[|s| - |suffix|..] == suffix
  }

  /** The last characters of `s` are `suffix` exactly when `s` is a stem followed by `suffix`. */
  lemma SuffixStem(s: string, suffix: string)
    ensures (|suffix| <= |s| && s[|s| - |suffix|..] == suffix) <==> exists stem :: stem + suffix == s
  {
    if |suffix| <= |s| && s[|s| - |suffix|..] == suffix {
      assert s[..|s| - |suffix|] + suffix == s;
    }
    if exists stem :: stem + suffix == s {
      var stem :| stem + suffix == s;
      assert s[|stem|..] == suffix;
    }
  }

  /** `pattern` occurs in `s` starting at index `i`. */
  predicate OccursAt(s: string, pattern: string, i: int) {
    0 <= i <= |s| - |pattern| && s[i..i + |pattern|] == pattern
  }

  /**
    `s.includes(pattern)`: a literal substring test, with no wildcard of any
    kind; the empty pattern occurs in every string.
   */
  function Contains(s: string, pattern: string): (r: bool)
    ensures r <==> exists i :: OccursAt(s, pattern, i)
    decreases |s|
  {
    if |pattern| > |s| then false
    else if s[..|pattern|] == pattern then assert OccursAt(s, pattern, 0); true
    else
      var r := Contains(s[1..], pattern);
      assert r ==> exists i :: OccursAt(s, pattern, i) by {
        if r {
          var j :| OccursAt(s[1..], pattern, j);
          assert s[1..][j..j + |pattern|] == s[j + 1..j + 1 + |pattern|];
          assert OccursAt(s, pattern, j + 1);
        }
      }
      assert (exists i :: OccursAt(s, pattern, i)) ==> r by {
        if exists i :: OccursAt(s, pattern, i) {
          var j :| OccursAt(s, pattern, j);
          assert j != 0;
          assert OccursAt(s[1..], pattern, j - 1);
        }
      }
      r
  }

  /** A pattern holding a character that `s` lacks does not occur in `s`. */
  lemma MissingCharacter(s: string, pattern: string, j: nat)
    requires j < |pattern| && pattern[j] !in s
    ensures !Contains(s, pattern)
  {
    if Contains(s, pattern) {
      var i :| OccursAt(s, pattern, i);
    }
  }

  /**
    `parts.join(sep)`: the empty list joins to the empty string. What a
    non-empty list joins to is stated by `JoinSingle`, `JoinCons`,
    `JoinFirst` and `JoinLast`.
   */
  function Join(parts: seq<string>, sep: string): (r: string)
    ensures |parts| == 0 ==> r == ""
  {
    if |parts| == 0 then ""
    else if |parts| == 1 then parts[0]
    else parts[0] + sep + Join(parts[1..], sep)
  }

  /** A one-part list joins to that part, whatever the separator. */
  lemma JoinSingle(p: string, sep: string)
    ensures Join([p], sep) == p
  {
  }

  /** A list of two or more parts joins to its first part, the separator, then the join of the rest. */
  lemma JoinCons(parts: seq<string>, sep: string)
    requires |parts| >= 2
    ensures Join(parts, sep) == parts[0] + sep + Join(parts[1..], sep)
  {
  }

  /** A non-empty list's join starts with its first part. */
  lemma JoinFirst(parts: seq<string>, sep: string)
    requires |parts| > 0
    ensures parts[0] <= Join(parts, sep)
  {
    if |parts| >= 2 {
      JoinCons(parts, sep);
      assert (parts[0] + sep + Join(parts[1..], sep))[..|parts[0]|] == parts[0];
    }
  }

  /** A non-empty list's join ends with its last part. */
  lemma {:induction false} JoinLast(parts: seq<string>, sep: string)
    requires |parts| > 0
    ensures EndsWith(Join(parts, sep), parts[|parts| - 1])
  {
    var last := parts[|parts| - 1];
    if |parts| == 1 {
      assert [] + last == Join(parts, sep);
    } else {
      JoinLast(parts[1..], sep);
      var rest := Join(parts[1..], sep);
      var stem :| stem + last == rest;
      assert (parts[0] + sep + stem) + last == Join(parts, sep);
    }
  }

  /**
    `s.split(sep)` for a one-character separator: never empty (the empty
    string splits into one empty piece), no piece contains the separator, and
    joining the pieces back with the separator gives `s` again.
   */
  function Split(s: string, sep: char): (r: seq<string>)
    ensures |r| >= 1
    ensures forall i :: 0 <= i < |r| ==> sep !in r[i]
    ensures Join(r, [sep]) == s
  {
    if s == [] then [""]
    else
      var rest := Split(s[1..], sep);
      if s[0] == sep then
        assert ([""] + rest)[1..] == rest;
        [""] + rest
      else
        var r := [[s[0]] + rest[0]] + rest[1..];
        assert |r| > 1 ==> r[1..] == rest[1..];
        assert s == [s[0]] + s[1..];
        r
  }

  /**
    Splitting around one separator splits each side: the pieces of
    `a + sep + b` are the pieces of `a` followed by the pieces of `b`.
   */
  lemma {:induction false} SplitAppend(a: string, b: string, sep: char)
    ensures Split(a + [sep] + b, sep) == Split(a, sep) + Split(b, sep)
  {
    var s := a + [sep] + b;
    if a == [] {
      assert s[1..] == b;
    } else {
      assert s[1..] == a[1..] + [sep] + b;
      SplitAppend(a[1..], b, sep);
    }
  }

  /** A string without the separator splits into itself alone. */
  lemma {:induction false} SplitWithoutSeparator(s: string, sep: char)
    requires sep !in s
    ensures Split(s, sep) == [s]
  {
    if s != [] {
      SplitWithoutSeparator(s[1..], sep);
      assert s == [s[0]] + s[1..];
    }
  }

  /** Splitting `a + sep + t`, where `a` holds no separator, yields `a` and then the pieces of `t`. */
  lemma {:induction false} SplitAfterPiece(a: string, t: string, sep: char)
    requires sep !in a
    ensures Split(a + [sep] + t, sep) == [a] + Split(t, sep)
  {
    var s := a + [sep] + t;
    if a == [] {
      assert s[1..] == t;
    } else {
      assert s[1..] == a[1..] + [sep] + t;
      SplitAfterPiece(a[1..], t, sep);
      assert a == [a[0]] + a[1..];
    }
  }

  /**
    The split/join round trip in the other direction: pieces that hold no
    separator are recovered exactly by splitting their join.
   */
  lemma {:induction false} SplitJoin(parts: seq<string>, sep: char)
    requires |parts| >= 1
    requires forall i :: 0 <= i < |parts| ==> sep !in parts[i]
    ensures Split(Join(parts, [sep]), sep) == parts
  {
    if |parts| == 1 {
      SplitWithoutSeparator(parts[0], sep);
    } else {
      SplitJoin(parts[1..], sep);
      SplitAfterPiece(parts[0], Join(parts[1..], [sep]), sep);
      assert parts == [parts[0]] + parts[1..];
    }
  }

  /** Joining the first `k` pieces gives a prefix of the join of all of them. */
  lemma {:induction false} JoinPrefix(parts: seq<string>, k: nat, sep: string)
    requires k <= |parts|
    ensures Join(parts[..k], sep) <= Join(parts, sep)
  {
    if k == 0 {
    } else if |parts| == 1 {
      assert parts[..k] == parts;
    } else if k == 1 {
      assert parts[..k] == [parts[0]];
    } else {
      JoinPrefix(parts[1..], k - 1, sep);
      assert parts[..k][1..] == parts[1..][..k - 1];
    }
  }

  /**
    `s.split('\n').slice(0, n).join('\n')`: keeps the first `n` lines of `s`.
    The result is a prefix of `s`, its lines are exactly the first `n` lines
    of `s` (the empty string, one empty line, when `n` is 0), and a text of at
    most `n` lines comes back unchanged.
   */
  function TruncateLines(s: string, n: nat): (r: string)
    ensures r <= s
    ensures Split(r, '\n') == if n == 0 then [""] else Take(Split(s, '\n'), n)
    ensures |Split(s, '\n')| <= n ==> r == s
  {
    var lines := Split(s, '\n');
    var kept := Take(lines, n);
    JoinPrefix(lines, |kept|, "\n");
    assert |lines| <= n ==> kept == lines;
    if n > 0 then SplitJoin(kept, '\n'); Join(kept, "\n")
    else Join(kept, "\n")
  }
}
