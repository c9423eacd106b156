/** Scanning Rust text: what is code, where a group closes, and the two line-preserving views of a file. */
module RustScanner {
  import opened Wrappers

  // ---------------------------------------------------------------- comments, strings and character literals

  predicate Starts(s: string, i: nat, pat: string) {
    i + |pat| <= |s| && s[i..i + |pat|] == pat
  }

  /** The first occurrence at or after i. */
  function Find(s: string, i: nat, pat: string): (r: Option<nat>)
    ensures r.Some? ==> i <= r.value && Starts(s, r.value, pat)
    ensures forall k :: i <= k && Starts(s, k, pat) ==> r.Some? && r.value <= k
    decreases |s| - i
  {
    if i + |pat| > |s| then None
    else if Starts(s, i, pat) then Some(i) else if i == |s| then None else Find(s, i + 1, pat)
  }

  /** Just past the block comment being read at the given nesting; Rust block comments nest. */
  function CommentEnd(src: string, j: nat, depth: int): (r: nat)
    requires j <= |src|
    ensures j <= r <= |src| && (r < |src| ==> j + 2 <= r && Starts(src, r - 2, "*/"))
    decreases |src| - j
  {
    if j == |src| then |src|
    else if Starts(src, j, "/*") then CommentEnd(src, j + 2, depth + 1)
    else if Starts(src, j, "*/") then if depth == 1 then j + 2 else CommentEnd(src, j + 2, depth - 1)
    else CommentEnd(src, j + 1, depth)
  }

  /** Just past the closing quote, or the end of the text. */
  function StringEnd(src: string, j: nat): (r: nat)
    ensures r <= |src| && (j <= |src| ==> j <= r)
    decreases |src| - j
  {
    if j >= |src| then |src|
    else if src[j] == '\\' then StringEnd(src, j + 2)
    else if src[j] == '"' then j + 1
    else StringEnd(src, j + 1)
  }

  /** How many backslashes stand right before k, counted back to from. */
  function Slashes(src: string, from: nat, k: nat): nat
    requires k <= |src|
  {
    if k > from && src[k - 1] == '\\' then 1 + Slashes(src, from, k - 1) else 0
  }

  /** A quote that no backslash escapes: the run of backslashes before it has even length. */
  predicate Closing(src: string, from: nat, k: nat) {
    from <= k < |src| && src[k] == '"' && Slashes(src, from, k) % 2 == 0
  }

  /** A string ends at its first unescaped quote, or with the text. */
  lemma {:induction false} StringEndIs(src: string, j: nat)
    requires j <= |src|
    ensures var r := StringEnd(src, j);
            || (j < r && Closing(src, j, r - 1) && forall k :: Closing(src, j, k) ==> r - 1 <= k)
            || (r == |src| && forall k :: !Closing(src, j, k))
    decreases |src| - j
  {
    if j < |src| {
      if src[j] == '\\' {
        forall k: nat ensures Closing(src, j, k) <==> Closing(src, j + 2, k) {
          if j < k < |src| { SlashesSkip(src, j, k); }
        }
        if j + 2 <= |src| { StringEndIs(src, j + 2); }
      } else if src[j] != '"' {
        forall k: nat ensures Closing(src, j, k) <==> Closing(src, j + 1, k) {
          if j < k < |src| { SlashesPlain(src, j, k); }
        }
        StringEndIs(src, j + 1);
      }
    }
  }

  lemma {:induction false} SlashesPlain(src: string, j: nat, k: nat)
    requires j < k <= |src| && src[j] != '\\'
    ensures Slashes(src, j, k) == Slashes(src, j + 1, k)
    decreases k
  {
    if k > j + 1 && src[k - 1] == '\\' { SlashesPlain(src, j, k - 1); }
  }

  lemma {:induction false} SlashesSkip(src: string, j: nat, k: nat)
    requires j < k <= |src| && src[j] == '\\'
    ensures k == j + 1 ==> Slashes(src, j, k) == 1
    ensures k >= j + 2 ==> Slashes(src, j, k) % 2 == Slashes(src, j + 2, k) % 2
    decreases k
  {
    if k >= j + 2 && src[k - 1] == '\\' {
      SlashesSkip(src, j, k - 1);
    }
  }

  /** How many hashes stand at j. */
  function Hashes(src: string, j: nat): (n: nat)
    ensures j <= |src| ==> j + n <= |src|
    decreases |src| - j
  {
    if j < |src| && src[j] == '#' then 1 + Hashes(src, j + 1) else 0
  }

  function Repeat(c: char, n: nat): (r: string)
    ensures |r| == n
  {
    if n == 0 then "" else [c] + Repeat(c, n - 1)
  }

  function RawEnd(src: string, i: nat): (r: Option<nat>)
    requires i < |src|
    ensures r.Some? ==> i < r.value <= |src|
  {
    var n := Hashes(src, i + 1);
    var j := i + 1 + n;
    if j >= |src| || src[j] != '"' then None
    else
      var end := Find(src, j + 1, "\"" + Repeat('#', n));
      if end.Some? then Some(end.value + 1 + n) else Some(|src|)
  }

  /** The closing quote of an unescaped character of at most four bytes. */
  function PlainChar(src: string, i: nat, width: nat): (r: Option<nat>)
    ensures r.Some? ==> i + width < r.value <= |src|
    decreases 5 - width
  {
    if width > 4 || i + 1 + width >= |src| then None
    else if src[i + 1 + width] == '\'' then Some(i + 2 + width)
    else PlainChar(src, i, width + 1)
  }

  /** A character literal; a lifetime shares the quote and has no closing one. */
  function CharEnd(src: string, i: nat): (r: Option<nat>)
    ensures r.Some? ==> i < r.value <= |src|
  {
    if Starts(src, i + 1, "\\") then
      var end := Find(src, i + 1, "'");
      if end.Some? && end.value - (i + 1) <= 5 then Some(end.value + 1) else None
    else PlainChar(src, i, 1)
  }

  /** Just past the comment, string or character literal that starts at i, if one does. */
  function Skip(src: string, i: nat): (r: Option<nat>)
    requires i < |src|
    ensures r.Some? ==> i < r.value <= |src|
  {
    if Starts(src, i, "//") then
      var end := Find(src, i, "\n");
      Some(if end.Some? then end.value + 1 else |src|)
    else if Starts(src, i, "/*") then Some(CommentEnd(src, i + 2, 1))
    else if src[i] == 'r' && (Starts(src, i, "r\"") || Starts(src, i, "r#")) then RawEnd(src, i)
    else if src[i] == '"' then Some(StringEnd(src, i + 1))
    else if src[i] == '\'' then CharEnd(src, i)
    else None
  }

  // ---------------------------------------------------------------- where they end, told apart from the scan

  /** How far a block comment is read at once: two characters where it opens or closes a level. */
  function Width(src: string, j: nat): nat { if Starts(src, j, "/*") || Starts(src, j, "*/") then 2 else 1 }

  function Turn(src: string, j: nat): int { if Starts(src, j, "/*") then 1 else if Starts(src, j, "*/") then -1 else 0 }

  /** Reading a comment from i comes to k. */
  predicate Boundary(src: string, i: nat, k: nat)
    decreases |src| - i
  {
    k == i || (i < |src| && i < k && Boundary(src, i + Width(src, i), k))
  }

  /** The levels opened less the levels closed between i and k. */
  function Nesting(src: string, i: nat, k: nat): int
    decreases |src| - i
  {
    if i >= k || i >= |src| then 0 else Turn(src, i) + Nesting(src, i + Width(src, i), k)
  }

  lemma {:induction false} CommentEndIs(src: string, j: nat, depth: int)
    requires j <= |src| && depth > 0
    ensures EndsAt(src, j, depth, CommentEnd(src, j, depth))
    decreases |src| - j
  {
    if j < |src| {
      if Starts(src, j, "/*") { OpensOrCloses(src, j); }
      var d, next := depth + Turn(src, j), j + Width(src, j);
      BoundaryAfter(src, next, j);
      if d > 0 {
        CommentEndIs(src, next, d);
        CommentStep(src, j, depth, next, d, CommentEnd(src, next, d));
      }
    }
  }

  /** What the rest of a comment does, with one more step before it. */
  lemma {:induction false} CommentStep(src: string, j: nat, depth: int, next: nat, d: int, r: nat)
    requires j < |src| && depth > 0 && d > 0 && next == j + Width(src, j) && d == depth + Turn(src, j)
    requires EndsAt(src, next, d, r)
    ensures EndsAt(src, j, depth, r)
  {
    forall k: nat | Boundary(src, j, k) ensures k == j || (Boundary(src, next, k) && k >= next)
      ensures Nesting(src, j, k) == if k == j then 0 else Turn(src, j) + Nesting(src, next, k)
    {
      if k != j { BoundaryLater(src, next, k); }
    }
    if next < r && Boundary(src, next, r) {
      assert Boundary(src, j, r) && Nesting(src, j, r) == Turn(src, j) + Nesting(src, next, r);
    }
  }

  lemma {:induction false} BoundaryLater(src: string, i: nat, k: nat)
    requires Boundary(src, i, k)
    ensures i <= k
  {
  }

  /** The comment read from j at the given depth ends at r, or never. */
  ghost predicate EndsAt(src: string, j: nat, depth: int, r: nat) {
    || (j < r && Boundary(src, j, r) && depth + Nesting(src, j, r) == 0
        && forall k: nat :: k < r && Boundary(src, j, k) ==> depth + Nesting(src, j, k) > 0)
    || (r == |src| && forall k: nat :: Boundary(src, j, k) ==> depth + Nesting(src, j, k) > 0)
  }

  lemma {:induction false} BoundaryAfter(src: string, next: nat, j: nat)
    requires j < next
    ensures !Boundary(src, next, j) && Boundary(src, next, next) && Nesting(src, next, next) == 0
  {
  }

  lemma {:induction false} OpensOrCloses(src: string, j: nat)
    requires Starts(src, j, "/*")
    ensures !Starts(src, j, "*/")
  {
    assert src[j..j + 2][0] == '/';
  }

  /** A block comment ends where as many levels have been closed as opened, for the first time after its opening, or
      with the text. */
  ghost predicate EndsComment(src: string, i: nat, end: nat) {
    EndsAt(src, i + 2, 1, end)
  }

  lemma {:induction false} CommentEnds(src: string, i: nat)
    requires Starts(src, i, "/*")
    ensures EndsComment(src, i, CommentEnd(src, i + 2, 1))
  {
    CommentEndIs(src, i + 2, 1);
  }

  /** A raw string opens at i with n hashes. */
  predicate OpensRaw(src: string, i: nat, n: nat) {
    i + 1 + n < |src| && src[i + 1 + n] == '"' && forall h :: i < h <= i + n ==> src[h] == '#'
  }

  /** A quote and n hashes stand at k. */
  predicate ClosesRaw(src: string, k: nat, n: nat) {
    k + n < |src| && src[k] == '"' && forall h :: k < h <= k + n ==> src[h] == '#'
  }

  /** A raw string ends past the first quote that is followed by as many hashes as opened it, or with the text. */
  ghost predicate EndsRaw(src: string, i: nat, n: nat, end: nat) {
    || (end > i + 2 + n && ClosesRaw(src, end - 1 - n, n)
        && forall k: nat :: i + 2 + n <= k && ClosesRaw(src, k, n) ==> end - 1 - n <= k)
    || (end == |src| && forall k: nat :: i + 2 + n <= k ==> !ClosesRaw(src, k, n))
  }

  lemma {:induction false} HashesAre(src: string, j: nat)
    requires j <= |src|
    ensures var n := Hashes(src, j);
            (forall h :: j <= h < j + n ==> src[h] == '#') && (j + n < |src| ==> src[j + n] != '#')
    decreases |src| - j
  {
    if j < |src| && src[j] == '#' { HashesAre(src, j + 1); }
  }

  lemma {:induction false} RepeatIs(c: char, n: nat)
    ensures forall h :: 0 <= h < n ==> Repeat(c, n)[h] == c
  {
    if n > 0 { RepeatIs(c, n - 1); }
  }

  lemma {:induction false} CloserIs(src: string, k: nat, n: nat)
    ensures Starts(src, k, "\"" + Repeat('#', n)) <==> ClosesRaw(src, k, n)
  {
    var pat := "\"" + Repeat('#', n);
    RepeatIs('#', n);
    if ClosesRaw(src, k, n) {
      assert src[k..k + 1 + n] == pat;
    }
    if Starts(src, k, pat) {
      assert src[k] == src[k..k + 1 + n][0] == pat[0];
      forall h | k < h <= k + n ensures src[h] == '#' {
        assert src[h] == src[k..k + 1 + n][h - k] == pat[h - k] == Repeat('#', n)[h - k - 1];
      }
    }
  }

  /** An r opens a raw string exactly when hashes and a quote follow it, and the string ends where it should. */
  lemma {:induction false} RawEndIs(src: string, i: nat)
    requires i < |src|
    ensures RawEnd(src, i).Some? <==> exists n :: OpensRaw(src, i, n)
    ensures RawEnd(src, i).Some? ==> exists n :: OpensRaw(src, i, n) && EndsRaw(src, i, n, RawEnd(src, i).value)
  {
    hide Repeat, Find, Starts;
    HashesAre(src, i + 1);
    var n := Hashes(src, i + 1);
    forall m | OpensRaw(src, i, m) ensures m == n {
      assert src[i + 1 + m] == '"';
    }
    if i + 1 + n < |src| && src[i + 1 + n] == '"' {
      assert OpensRaw(src, i, n);
      forall k: nat ensures Starts(src, k, "\"" + Repeat('#', n)) <==> ClosesRaw(src, k, n) { CloserIs(src, k, n); }
      assert EndsRaw(src, i, n, RawEnd(src, i).value);
    }
  }

  /** An apostrophe that can close the literal opened at i: at most four characters stand between, or six after a
      backslash. */
  predicate ClosesChar(src: string, i: nat, k: nat) {
    i + 2 <= k < |src| && src[k] == '\'' && k <= if src[i + 1] == '\\' then i + 6 else i + 5
  }

  lemma {:induction false} PlainCharIs(src: string, i: nat, width: nat)
    requires 1 <= width <= 5
    ensures var r := PlainChar(src, i, width);
            && (r.Some? ==> i + 1 + width <= r.value - 1 < |src| && r.value - 1 <= i + 5 && src[r.value - 1] == '\''
                            && forall k :: i + 1 + width <= k < r.value - 1 ==> src[k] != '\'')
            && (r.None? ==> forall k :: i + 1 + width <= k < |src| && k <= i + 5 ==> src[k] != '\'')
    decreases 5 - width
  {
    if width <= 4 && i + 1 + width < |src| && src[i + 1 + width] != '\'' { PlainCharIs(src, i, width + 1); }
  }

  lemma {:induction false} OneCharIs(src: string, k: nat, c: char)
    ensures Starts(src, k, [c]) <==> k < |src| && src[k] == c
  {
    if k < |src| { assert src[k..k + 1] == [src[k]]; }
  }

  /** An apostrophe opens a literal exactly when another can close it, and the literal ends past the first that can;
      otherwise it begins a lifetime. */
  lemma {:induction false} CharEndIs(src: string, i: nat)
    requires i < |src|
    ensures var r := CharEnd(src, i);
            && (r.Some? ==>
                  ClosesChar(src, i, r.value - 1) && forall k: nat :: ClosesChar(src, i, k) ==> r.value - 1 <= k)
            && (r.None? ==> forall k: nat :: !ClosesChar(src, i, k))
  {
    hide Find, Starts;
    OneCharIs(src, i + 1, '\\');
    assert "\\" == ['\\'] && "'" == ['\''];
    if Starts(src, i + 1, "\\") {
      forall k: nat ensures Starts(src, k, "'") <==> k < |src| && src[k] == '\'' { OneCharIs(src, k, '\''); }
    } else {
      PlainCharIs(src, i, 1);
    }
  }

  ghost predicate EndsLine(src: string, i: nat, end: nat) {
    || (i < end <= |src| && src[end - 1] == '\n' && forall k :: i <= k < end - 1 ==> src[k] != '\n')
    || (end == |src| && forall k :: i <= k < |src| ==> src[k] != '\n')
  }

  ghost predicate EndsString(src: string, from: nat, end: nat) {
    || (from < end && Closing(src, from, end - 1) && forall k :: Closing(src, from, k) ==> end - 1 <= k)
    || (end == |src| && forall k :: !Closing(src, from, k))
  }

  ghost predicate EndsChar(src: string, i: nat, end: nat) {
    end > 0 && ClosesChar(src, i, end - 1) && forall k: nat :: ClosesChar(src, i, k) ==> end - 1 <= k
  }

  /** Something that is not code starts at i. */
  ghost predicate OpensSpan(src: string, i: nat)
    requires i < |src|
  {
    || Starts(src, i, "//") || Starts(src, i, "/*") || src[i] == '"'
    || (src[i] == 'r' && exists n :: OpensRaw(src, i, n))
    || (src[i] == '\'' && exists k: nat :: ClosesChar(src, i, k))
  }

  /** It ends at end: a line comment past its newline, the others where their own kind closes. */
  ghost predicate Span(src: string, i: nat, end: nat)
    requires i < |src|
  {
    || (Starts(src, i, "//") && EndsLine(src, i, end))
    || (Starts(src, i, "/*") && EndsComment(src, i, end))
    || (src[i] == 'r' && exists n :: OpensRaw(src, i, n) && EndsRaw(src, i, n, end))
    || (src[i] == '"' && EndsString(src, i + 1, end))
    || (src[i] == '\'' && EndsChar(src, i, end))
  }

  lemma {:induction false} LineEndIs(src: string, i: nat)
    requires i < |src|
    ensures var end := Find(src, i, "\n"); EndsLine(src, i, if end.Some? then end.value + 1 else |src|)
  {
    assert "\n" == ['\n'];
    forall k: nat ensures Starts(src, k, "\n") <==> k < |src| && src[k] == '\n' { OneCharIs(src, k, '\n'); }
  }

  lemma {:induction false} SlashFirst(src: string, i: nat)
    requires Starts(src, i, "//") || Starts(src, i, "/*")
    ensures src[i] == '/'
  {
    assert src[i] == src[i..i + 2][0];
  }

  /** A raw string's r is followed by a quote or a hash. */
  lemma {:induction false} RawStarts(src: string, i: nat)
    requires i < |src| && src[i] == 'r'
    ensures (exists n :: OpensRaw(src, i, n)) ==> Starts(src, i, "r\"") || Starts(src, i, "r#")
  {
    if n :| OpensRaw(src, i, n) {
      if n == 0 {
        assert src[i..i + 2] == "r\"";
      } else {
        assert src[i + 1] == '#';
        assert src[i..i + 2] == "r#";
      }
    }
  }

  /** What Skip means, kind by kind. */
  lemma {:induction false} SkipIs(src: string, i: nat)
    requires i < |src|
    ensures Skip(src, i).Some? <==> OpensSpan(src, i)
    ensures Skip(src, i).Some? ==> Span(src, i, Skip(src, i).value)
  {
    hide EndsLine, EndsComment, EndsRaw, EndsString, CommentEnd, StringEnd, RawEnd, CharEnd, Find, Starts, OpensRaw,
         ClosesChar;
    if Starts(src, i, "//") {
      SlashFirst(src, i);
      LineEndIs(src, i);
    } else if Starts(src, i, "/*") {
      SlashFirst(src, i);
      CommentEnds(src, i);
    } else if src[i] == 'r' {
      RawStarts(src, i);
      RawEndIs(src, i);
    } else if src[i] == '"' {
      assert EndsString(src, i + 1, StringEnd(src, i + 1)) by { StringEnds(src, i); }
    } else if src[i] == '\'' {
      CharEndIs(src, i);
      if CharEnd(src, i).Some? { assert EndsChar(src, i, CharEnd(src, i).value); }
    }
  }

  lemma {:induction false} StringEnds(src: string, i: nat)
    requires i < |src|
    ensures EndsString(src, i + 1, StringEnd(src, i + 1))
  {
    StringEndIs(src, i + 1);
  }

  // ---------------------------------------------------------------- the scanning loops

  method SkipString(src: string, i: nat) returns (end: nat)
    requires i < |src|
    ensures end == StringEnd(src, i + 1) && EndsString(src, i + 1, end)
  {
    StringEnds(src, i);
    var j := i + 1;
    while j < |src|
      invariant StringEnd(src, i + 1) == StringEnd(src, j)
      decreases |src| - j
    {
      if src[j] == '\\' {
        j := j + 1;
      } else if src[j] == '"' {
        return j + 1;
      }
      j := j + 1;
    }
    end := |src|;
  }

  method SkipRawString(src: string, i: nat) returns (r: Option<nat>)
    requires i < |src|
    ensures r == RawEnd(src, i)
    ensures r.Some? <==> exists n :: OpensRaw(src, i, n)
    ensures r.Some? ==> exists n :: OpensRaw(src, i, n) && EndsRaw(src, i, n, r.value)
  {
    hide OpensRaw, EndsRaw;
    RawEndIs(src, i);
    var j, hashes := i + 1, 0;
    while j < |src| && src[j] == '#'
      invariant j == i + 1 + hashes <= |src|
      invariant Hashes(src, i + 1) == hashes + Hashes(src, j)
    {
      hashes := hashes + 1;
      j := j + 1;
    }
    if j >= |src| || src[j] != '"' { return None; }
    var end := Find(src, j + 1, "\"" + Repeat('#', hashes));
    r := if end.Some? then Some(end.value + 1 + hashes) else Some(|src|);
  }

  method SkipChar(src: string, i: nat) returns (r: Option<nat>)
    requires i < |src|
    ensures r == CharEnd(src, i)
    ensures r.Some? ==> EndsChar(src, i, r.value)
    ensures r.None? ==> forall k: nat :: !ClosesChar(src, i, k)
  {
    CharEndIs(src, i);
    if Starts(src, i + 1, "\\") {
      var end := Find(src, i + 1, "'");
      return if end.Some? && end.value - (i + 1) <= 5 then Some(end.value + 1) else None;
    }
    var width := 1;
    while width <= 4 && i + 1 + width < |src|
      invariant PlainChar(src, i, 1) == PlainChar(src, i, width)
    {
      if src[i + 1 + width] == '\'' { return Some(i + 2 + width); }
      width := width + 1;
    }
    r := None;
  }

  /** One step of reading a comment. */
  lemma {:induction false} CommentReads(src: string, j: nat, depth: int)
    requires j <= |src|
    ensures j == |src| ==> CommentEnd(src, j, depth) == |src|
    ensures Starts(src, j, "/*") ==> j + 2 <= |src| && CommentEnd(src, j, depth) == CommentEnd(src, j + 2, depth + 1)
    ensures Starts(src, j, "*/") && !Starts(src, j, "/*") ==>
              j + 2 <= |src| && CommentEnd(src, j, depth) == if depth == 1 then j + 2
                else CommentEnd(src, j + 2, depth - 1)
    ensures j < |src| && !Starts(src, j, "*/") && !Starts(src, j, "/*") ==>
              CommentEnd(src, j, depth) == CommentEnd(src, j + 1, depth)
  {
  }

  method SkipComment(src: string, i: nat) returns (end: nat)
    requires Starts(src, i, "/*")
    ensures end == CommentEnd(src, i + 2, 1) && EndsComment(src, i, end)
  {
    hide EndsComment, CommentEnd;
    CommentEnds(src, i);
    CommentReads(src, i, 0);
    hide Starts;
    var depth, j := 0, i;
    while j < |src|
      invariant j <= |src| && CommentEnd(src, i, 0) == CommentEnd(src, j, depth)
    {
      CommentReads(src, j, depth);
      if Starts(src, j, "/*") {
        depth := depth + 1;
        j := j + 2;
      } else if Starts(src, j, "*/") {
        depth := depth - 1;
        j := j + 2;
        if depth == 0 { return j; }
      } else {
        j := j + 1;
      }
    }
    CommentReads(src, j, depth);
    end := |src|;
  }

  /** Skips exactly what is not code, to its end, and so never stands still. */
  method SkipNonCode(src: string, i: nat) returns (r: Option<nat>)
    requires i < |src|
    ensures r == Skip(src, i) && (r.Some? <==> OpensSpan(src, i)) && (r.Some? ==> Span(src, i, r.value))
  {
    hide OpensSpan, Span;
    SkipIs(src, i);
    if Starts(src, i, "//") {
      var end := Find(src, i, "\n");
      r := Some(if end.Some? then end.value + 1 else |src|);
    } else if Starts(src, i, "/*") {
      var end := SkipComment(src, i);
      r := Some(end);
    } else if src[i] == 'r' && (Starts(src, i, "r\"") || Starts(src, i, "r#")) {
      r := SkipRawString(src, i);
    } else if src[i] == '"' {
      var end := SkipString(src, i);
      r := Some(end);
    } else if src[i] == '\'' {
      r := SkipChar(src, i);
    } else {
      r := None;
    }
  }

  // ---------------------------------------------------------------- what a scan visits

  /** A scan from i meets position k as code. */
  predicate Visits(src: string, i: nat, k: nat)
    decreases |src| - i
  {
    i < |src| && i <= k &&
    match Skip(src, i)
    case Some(j) => Visits(src, j, k)
    case None => k == i || Visits(src, i + 1, k)
  }

  lemma {:induction false} VisitsInside(src: string, i: nat, k: nat)
    requires Visits(src, i, k)
    ensures i <= k < |src| && Skip(src, k) == None
    decreases |src| - i
  {
    match Skip(src, i)
    case Some(j) => VisitsInside(src, j, k);
    case None => if k != i { VisitsInside(src, i + 1, k); }
  }

  function Delta(opens: set<char>, closes: set<char>, c: char): int {
    if c in opens then 1 else if c in closes then -1 else 0
  }

  /** How far the code positions met from i on and before k change the depth. */
  function Before(src: string, opens: set<char>, closes: set<char>, i: nat, k: nat): int
    decreases |src| - i
  {
    if i >= k || i >= |src| then 0
    else
      match Skip(src, i)
      case Some(j) => Before(src, opens, closes, j, k)
      case None => Delta(opens, closes, src[i]) + Before(src, opens, closes, i + 1, k)
  }

  /** The depth just after position k. */
  function After(src: string, opens: set<char>, closes: set<char>, i: nat, k: nat): int
    requires k < |src|
  {
    Before(src, opens, closes, i, k) + Delta(opens, closes, src[k])
  }

  // ---------------------------------------------------------------- balanced groups

  /** The scan for the close, from i at the given depth. */
  function CloseFrom(src: string, oc: char, cc: char, i: nat, depth: int): (r: Option<nat>)
    decreases |src| - i
  {
    if i >= |src| then None
    else
      match Skip(src, i)
      case Some(j) => CloseFrom(src, oc, cc, j, depth)
      case None =>
        if src[i] == oc then CloseFrom(src, oc, cc, i + 1, depth + 1)
        else if src[i] != cc then CloseFrom(src, oc, cc, i + 1, depth)
        else if depth == 1 then Some(i)
        else CloseFrom(src, oc, cc, i + 1, depth - 1)
  }

  /** The delimiters of blocks and of argument lists. */
  predicate Delimiters(oc: char, cc: char) {
    (oc == '{' && cc == '}') || (oc == '(' && cc == ')')
  }

  /** k closes the group that opens at open: it is code, the depth returns to zero there, and was positive before. */
  predicate Matches(src: string, oc: char, cc: char, open: nat, k: nat) {
    && open < k < |src| && src[k] == cc && Visits(src, open, k) && After(src, {oc}, {cc}, open, k) == 0
    && forall j :: open <= j < k && Visits(src, open, j) ==> After(src, {oc}, {cc}, open, j) > 0
  }

  /** From i on the group stays open at every position met before end, or at every one if there is no end. */
  ghost predicate OpenUntil(src: string, oc: char, cc: char, i: nat, depth: int, end: Option<nat>) {
    forall j: nat :: Visits(src, i, j) && (end.Some? ==> j < end.value) ==>
      j < |src| && depth + After(src, {oc}, {cc}, i, j) > 0
  }

  lemma {:induction false} OpenOver(src: string, oc: char, cc: char, i: nat, k: nat, depth: int, end: Option<nat>)
    requires i < |src| && Skip(src, i) == Some(k) && OpenUntil(src, oc, cc, k, depth, end)
    ensures OpenUntil(src, oc, cc, i, depth, end)
  {
    hide Skip;
    forall j: nat | Visits(src, i, j) && (end.Some? ==> j < end.value)
      ensures j < |src| && depth + After(src, {oc}, {cc}, i, j) > 0
    {
      assert Visits(src, k, j);
      VisitsInside(src, k, j);
    }
  }

  lemma {:induction false} OpenPast(src: string, oc: char, cc: char, i: nat, depth: int, end: Option<nat>)
    requires i < |src| && Skip(src, i).None? && depth + Delta({oc}, {cc}, src[i]) > 0
    requires OpenUntil(src, oc, cc, i + 1, depth + Delta({oc}, {cc}, src[i]), end)
    ensures OpenUntil(src, oc, cc, i, depth, end)
  {
    hide Skip;
    forall j: nat | Visits(src, i, j) && (end.Some? ==> j < end.value)
      ensures j < |src| && depth + After(src, {oc}, {cc}, i, j) > 0
    {
      if j != i {
        assert Visits(src, i + 1, j);
        VisitsInside(src, i + 1, j);
      }
    }
  }

  lemma {:induction false} OpenNone(src: string, oc: char, cc: char, i: nat, depth: int)
    ensures i < |src| && Skip(src, i).None? ==> OpenUntil(src, oc, cc, i, depth, Some(i))
    ensures i >= |src| ==> OpenUntil(src, oc, cc, i, depth, None)
  {
    hide Skip, Delta;
  }

  lemma {:induction false} CloseIsMet(src: string, oc: char, cc: char, i: nat, depth: int)
    requires oc != cc && depth > 0
    ensures var r := CloseFrom(src, oc, cc, i, depth);
            r.Some? ==> i <= r.value < |src| && src[r.value] == cc && Visits(src, i, r.value)
                        && depth + After(src, {oc}, {cc}, i, r.value) == 0
    decreases |src| - i
  {
    if i < |src| {
      match Skip(src, i)
      case Some(j) => CloseIsMet(src, oc, cc, j, depth);
      case None =>
        var d := depth + Delta({oc}, {cc}, src[i]);
        if d > 0 { CloseIsMet(src, oc, cc, i + 1, d); }
    }
  }

  lemma {:induction false} OpenBefore(src: string, oc: char, cc: char, i: nat, depth: int)
    requires oc != cc && depth > 0
    ensures OpenUntil(src, oc, cc, i, depth, CloseFrom(src, oc, cc, i, depth))
    decreases |src| - i
  {
    hide OpenUntil;
    var r := CloseFrom(src, oc, cc, i, depth);
    OpenNone(src, oc, cc, i, depth);
    if i < |src| {
      match Skip(src, i)
      case Some(j) =>
        OpenBefore(src, oc, cc, j, depth);
        OpenOver(src, oc, cc, i, j, depth, r);
      case None =>
        var d := depth + Delta({oc}, {cc}, src[i]);
        if d > 0 {
          OpenBefore(src, oc, cc, i + 1, d);
          OpenPast(src, oc, cc, i, depth, r);
        }
    }
  }

  lemma {:induction false} CloseIsFirst(src: string, oc: char, cc: char, i: nat, depth: int)
    requires oc != cc && depth > 0
    ensures var r := CloseFrom(src, oc, cc, i, depth);
            && (r.Some? ==> i <= r.value < |src| && src[r.value] == cc && Visits(src, i, r.value)
                            && depth + After(src, {oc}, {cc}, i, r.value) == 0)
            && OpenUntil(src, oc, cc, i, depth, r)
  {
    hide OpenUntil, CloseFrom, Visits;
    CloseIsMet(src, oc, cc, i, depth);
    OpenBefore(src, oc, cc, i, depth);
  }

  /** The group that opens at a delimiter ends where its depth first returns to zero, if it ever does. */
  lemma {:induction false} CloseMatches(src: string, oc: char, cc: char, open: nat)
    requires Delimiters(oc, cc) && open < |src| && src[open] == oc
    ensures var r := CloseFrom(src, oc, cc, open, 0);
            if r.Some? then Matches(src, oc, cc, open, r.value)
            else forall k: nat :: Visits(src, open, k) ==> k < |src| && After(src, {oc}, {cc}, open, k) > 0
  {
    assert Skip(src, open) == None;
    CloseIsFirst(src, oc, cc, open + 1, 1);
    forall k: nat | Visits(src, open + 1, k)
      ensures Visits(src, open, k) && k < |src|
              && After(src, {oc}, {cc}, open, k) == 1 + After(src, {oc}, {cc}, open + 1, k)
    {
      VisitsInside(src, open + 1, k);
    }
  }

  /** No two positions close the same group. */
  lemma {:induction false} MatchesOnce(src: string, oc: char, cc: char, open: nat, j: nat, k: nat)
    requires Matches(src, oc, cc, open, j) && Matches(src, oc, cc, open, k)
    ensures j == k
  {
  }

  lemma {:induction false} MatchesAfter(src: string, oc: char, cc: char, open: nat, k: nat)
    requires Matches(src, oc, cc, open, k)
    ensures open < k < |src|
  {
  }

  lemma {:induction false} NeverMatches(src: string, oc: char, cc: char, open: nat)
    requires forall k: nat :: Visits(src, open, k) ==> k < |src| && After(src, {oc}, {cc}, open, k) > 0
    ensures forall k: nat :: !Matches(src, oc, cc, open, k)
  {
    hide Visits, Before;
  }

  datatype Group = Group(body: string, end: nat)

  /** The contents between the delimiter at open and the one that closes it, and the index just past that one. */
  method Balanced(src: string, open: nat, oc: char, cc: char) returns (r: Option<Group>)
    requires Delimiters(oc, cc)
    ensures r.Some? ==> open < |src| && src[open] == oc && open + 1 < r.value.end
                        && Matches(src, oc, cc, open, r.value.end - 1)
                        && r.value.body == src[open + 1..r.value.end - 1]
                        && CloseFrom(src, oc, cc, open, 0) == Some(r.value.end - 1)
    ensures r.None? ==> open >= |src| || src[open] != oc
                        || (CloseFrom(src, oc, cc, open, 0).None? && forall k: nat :: !Matches(src, oc, cc, open, k))
  {
    hide Skip, Visits, Before, Matches;
    if open >= |src| || src[open] != oc { return None; }
    CloseMatches(src, oc, cc, open);
    var depth, i := 0, open;
    while i < |src|
      invariant open <= i <= |src| && CloseFrom(src, oc, cc, open, 0) == CloseFrom(src, oc, cc, i, depth)
      decreases |src| - i
    {
      var skipped := SkipNonCode(src, i);
      if skipped.Some? {
        i := skipped.value;
        continue;
      }
      if src[i] == oc {
        depth := depth + 1;
      } else if src[i] == cc {
        depth := depth - 1;
        if depth == 0 {
          MatchesAfter(src, oc, cc, open, i);
          return Some(Group(src[open + 1..i], i + 1));
        }
      }
      i := i + 1;
    }
    NeverMatches(src, oc, cc, open);
    r := None;
  }

  // ---------------------------------------------------------------- match arms

  const OPENS := {'(', '[', '{'}
  const CLOSES := {')', ']', '}'}

  /** k ends the arm that starts at start: code outside every group, a comma or a close that opened before the arm. */
  predicate EndsArm(src: string, start: nat, k: nat) {
    && start <= k < |src| && Visits(src, start, k) && Before(src, OPENS, CLOSES, start, k) == 0
    && (src[k] == ',' || src[k] in CLOSES)
  }

  function ArmEnd(src: string, i: nat, depth: nat): (r: Option<nat>)
    decreases |src| - i
  {
    if i >= |src| then None
    else
      match Skip(src, i)
      case Some(j) => ArmEnd(src, j, depth)
      case None =>
        if src[i] in OPENS then ArmEnd(src, i + 1, depth + 1)
        else if src[i] in CLOSES then if depth == 0 then Some(i) else ArmEnd(src, i + 1, depth - 1)
        else if src[i] == ',' && depth == 0 then Some(i)
        else ArmEnd(src, i + 1, depth)
  }

  predicate Ends(c: char) { c == ',' || c in CLOSES }

  /** r is the first position met from i on that ends an arm in which the scan is depth groups deep, if there is one. */
  ghost predicate FirstArmEnd(src: string, i: nat, depth: int, r: Option<nat>) {
    && (r.Some? ==> i <= r.value < |src| && Visits(src, i, r.value) && Ends(src[r.value])
                    && depth + Before(src, OPENS, CLOSES, i, r.value) == 0)
    && forall j: nat :: Visits(src, i, j) && (r.Some? ==> j < r.value) ==>
         j < |src| && !(depth + Before(src, OPENS, CLOSES, i, j) == 0 && Ends(src[j]))
  }

  lemma {:induction false} ArmSkips(src: string, i: nat, depth: int, next: nat, r: Option<nat>)
    requires i < |src| && Skip(src, i) == Some(next) && FirstArmEnd(src, next, depth, r)
    ensures FirstArmEnd(src, i, depth, r)
  {
    hide Skip, Delta, Ends;
    forall j: nat ensures Visits(src, i, j) ==> Visits(src, next, j) && j >= next
      ensures j >= next ==> Before(src, OPENS, CLOSES, i, j) == Before(src, OPENS, CLOSES, next, j)
    {
      if Visits(src, i, j) { VisitsInside(src, next, j); }
    }
  }

  lemma {:induction false} ArmSteps(src: string, i: nat, depth: int, r: Option<nat>)
    requires i < |src| && Skip(src, i).None? && !(depth == 0 && Ends(src[i]))
    requires FirstArmEnd(src, i + 1, depth + Delta(OPENS, CLOSES, src[i]), r)
    ensures FirstArmEnd(src, i, depth, r)
  {
    hide Skip, Delta, Ends;
    forall j: nat ensures Visits(src, i, j) ==> j == i || (Visits(src, i + 1, j) && j > i)
      ensures j > i ==> Before(src, OPENS, CLOSES, i, j) == Delta(OPENS, CLOSES, src[i]) + Before(src, OPENS, CLOSES,
          i + 1, j)
    {
      if Visits(src, i, j) && j != i { VisitsInside(src, i + 1, j); }
    }
  }

  lemma {:induction false} ArmStops(src: string, i: nat)
    requires i < |src| && Skip(src, i).None? && Ends(src[i])
    ensures FirstArmEnd(src, i, 0, Some(i))
  {
    hide Skip, Ends;
    forall j: nat | Visits(src, i, j) ensures j >= i { VisitsInside(src, i, j); }
  }

  lemma {:induction false} ArmEndIsFirst(src: string, i: nat, depth: nat)
    ensures FirstArmEnd(src, i, depth, ArmEnd(src, i, depth))
    decreases |src| - i
  {
    hide Skip, Visits, Before, FirstArmEnd;
    if i >= |src| {
      NothingVisited(src, i, depth);
    } else if Skip(src, i).Some? {
      ArmEndIsFirst(src, Skip(src, i).value, depth);
      ArmSkips(src, i, depth, Skip(src, i).value, ArmEnd(src, i, depth));
    } else if depth == 0 && Ends(src[i]) {
      ArmStops(src, i);
    } else {
      ArmEndIsFirst(src, i + 1, depth + Delta(OPENS, CLOSES, src[i]));
      ArmSteps(src, i, depth, ArmEnd(src, i, depth));
    }
  }

  lemma {:induction false} NothingVisited(src: string, i: nat, depth: int)
    requires i >= |src|
    ensures FirstArmEnd(src, i, depth, None)
  {
  }

  lemma {:induction false} ArmEndEnds(src: string, start: nat)
    ensures var r := ArmEnd(src, start, 0);
            && (r.Some? ==> EndsArm(src, start, r.value) && forall j: nat :: j < r.value ==> !EndsArm(src, start, j))
            && (r.None? ==> forall j: nat :: !EndsArm(src, start, j))
  {
    hide Before, Visits;
    ArmEndIsFirst(src, start, 0);
  }

  /** The expression of an arm: up to the first position that ends it. */
  method UntilArmComma(src: string, start: nat) returns (r: Option<string>)
    ensures r.Some? ==> exists k: nat :: k < |src| && start <= k && r.value == src[start..k] && EndsArm(src, start, k)
                                        && forall j: nat :: j < k ==> !EndsArm(src, start, j)
    ensures r.None? ==> forall k: nat :: !EndsArm(src, start, k)
  {
    hide Skip, EndsArm;
    ArmEndEnds(src, start);
    var depth, i := 0, start;
    while i < |src|
      invariant start <= i && 0 <= depth && ArmEnd(src, start, 0) == ArmEnd(src, i, depth)
      decreases |src| - i
    {
      var skipped := SkipNonCode(src, i);
      if skipped.Some? {
        i := skipped.value;
        continue;
      }
      if src[i] in OPENS {
        depth := depth + 1;
      } else if src[i] in CLOSES {
        if depth == 0 { return Some(src[start..i]); }
        depth := depth - 1;
      } else if src[i] == ',' {
        if depth == 0 { return Some(src[start..i]); }
      }
      i := i + 1;
    }
    r := None;
  }

  // ---------------------------------------------------------------- the two views of a file

  const MARKER := "#[cfg(test)]"

  /** The first test module at or after a position: from its marker to just past its block. */
  function NextTest(text: string, at: nat): (r: Option<(nat, nat)>)
    ensures r.Some? ==> at <= r.value.0 < r.value.1 <= |text|
  {
    var found := Find(text, at, MARKER);
    if found.None? then None
    else
      var open := Find(text, found.value, "{");
      if open.None? then None
      else
        var end := CloseFrom(text, '{', '}', open.value, 0);
        if end.None? then None else BlockEnds(text, open.value, end.value); Some((found.value, end.value + 1))
  }

  lemma {:induction false} BlockEnds(text: string, open: nat, k: nat)
    requires Starts(text, open, "{") && CloseFrom(text, '{', '}', open, 0) == Some(k)
    ensures open < k < |text|
  {
    AtBrace(text, open);
    CloseMatches(text, '{', '}', open);
  }

  /** A test module runs from the first marker to the close of the first block after it. */
  lemma {:induction false} NextTestIs(text: string, at: nat, from: nat, to: nat)
    requires NextTest(text, at) == Some((from, to))
    ensures at <= from && Starts(text, from, MARKER) && forall k: nat :: at <= k < from ==> !Starts(text, k, MARKER)
    ensures exists open: nat :: from <= open && Starts(text, open, "{") && Matches(text, '{', '}', open, to - 1)
                                && forall k: nat :: from <= k < open ==> !Starts(text, k, "{")
  {
    hide CloseFrom, Matches, Find, Starts;
    var open := Find(text, from, "{").value;
    AtBrace(text, open);
    CloseMatches(text, '{', '}', open);
  }

  /** There is no further test module exactly when no marker is left, no block follows the next one, or that block never
      closes. */
  lemma {:induction false} NoNextTest(text: string, at: nat)
    ensures NextTest(text, at).None? <==>
              || (forall k: nat :: at <= k ==> !Starts(text, k, MARKER))
              || exists from: nat :: FirstAt(text, at, from, MARKER) && NeverCloses(text, from)
  {
    hide CloseFrom, Matches, Find, Starts;
    var found := Find(text, at, MARKER);
    if found.Some? {
      var from := found.value;
      assert FirstAt(text, at, from, MARKER);
      forall f: nat | FirstAt(text, at, f, MARKER) ensures f == from { }
      BlockCloses(text, from);
    }
  }

  /** The pattern stands at k, and nowhere from at on before it. */
  predicate FirstAt(text: string, at: nat, k: nat, pat: string) {
    at <= k && Starts(text, k, pat) && forall j: nat :: at <= j < k ==> !Starts(text, j, pat)
  }

  /** No block follows, or the first that does is left open. */
  ghost predicate NeverCloses(text: string, from: nat) {
    || (forall k: nat :: from <= k ==> !Starts(text, k, "{"))
    || exists open: nat :: FirstAt(text, from, open, "{") && forall k: nat :: !Matches(text, '{', '}', open, k)
  }

  lemma {:induction false} BlockCloses(text: string, from: nat)
    ensures var open := Find(text, from, "{");
            NeverCloses(text, from) <==> open.None? || CloseFrom(text, '{', '}', open.value, 0).None?
  {
    hide CloseFrom, Matches, Find, Starts;
    var open := Find(text, from, "{");
    if open.Some? {
      AtBrace(text, open.value);
      CloseMatches(text, '{', '}', open.value);
      if CloseFrom(text, '{', '}', open.value, 0).None? { NeverMatches(text, '{', '}', open.value); }
      assert FirstAt(text, from, open.value, "{");
      forall o: nat | FirstAt(text, from, o, "{") ensures o == open.value { }
    }
  }

  /** Position k lies in one of the test modules found from a position on. */
  predicate InTest(text: string, at: nat, k: nat)
    decreases |text| - at
  {
    var t := NextTest(text, at);
    t.Some? && at < |text| && (t.value.0 <= k < t.value.1 || InTest(text, t.value.1, k))
  }

  function Blank(c: char): char { if c == '\n' then '\n' else ' ' }

  /** One character of a view. */
  function Seen(text: string, keepTests: bool, k: nat): char
    requires k < |text|
  {
    if InTest(text, 0, k) == keepTests then text[k] else Blank(text[k])
  }

  predicate IsView(text: string, keepTests: bool, view: string) {
    |view| == |text| && forall k :: 0 <= k < |text| ==> view[k] == Seen(text, keepTests, k)
  }

  lemma {:induction false} InTestLater(text: string, at: nat, k: nat)
    requires InTest(text, at, k)
    ensures at <= k < |text|
    decreases |text| - at
  {
    var t := NextTest(text, at).value;
    if !(t.0 <= k < t.1) { InTestLater(text, t.1, k); }
  }

  /** Every position survives in exactly one view and is blanked, a newline staying a newline, in the other. */
  lemma {:induction false} ViewsAreComplementary(text: string, production: string, tests: string, k: nat)
    requires IsView(text, false, production) && IsView(text, true, tests) && k < |text|
    ensures InTest(text, 0, k) ==> tests[k] == text[k] && production[k] == Blank(text[k])
    ensures !InTest(text, 0, k) ==> production[k] == text[k] && tests[k] == Blank(text[k])
    ensures production[k] == '\n' <==> text[k] == '\n'
    ensures tests[k] == '\n' <==> text[k] == '\n'
  {
    assert production[k] == Seen(text, false, k) && tests[k] == Seen(text, true, k);
  }

  /** The line a position lies on, counted from 1. */
  function LineAt(s: string, index: nat): nat
    requires index <= |s|
  {
    if index == 0 then 1 else LineAt(s, index - 1) + if s[index - 1] == '\n' then 1 else 0
  }

  ghost function Newlines(s: string, index: nat): set<nat>
    requires index <= |s|
  {
    set k: nat | k < index && s[k] == '\n'
  }

  /** The line number is one more than the newlines before the position. */
  lemma {:induction false} LineAtCounts(s: string, index: nat)
    requires index <= |s|
    ensures LineAt(s, index) == 1 + |Newlines(s, index)|
  {
    if index > 0 {
      var before: nat := index - 1;
      LineAtCounts(s, before);
      if s[before] == '\n' {
        assert Newlines(s, index) == Newlines(s, before) + {before};
      } else {
        assert Newlines(s, index) == Newlines(s, before);
      }
    } else {
      assert Newlines(s, index) == {};
    }
  }

  /** A line number taken in either view is that of the file. */
  lemma {:induction false} SameLines(text: string, keepTests: bool, view: string, index: nat)
    requires IsView(text, keepTests, view) && index <= |text|
    ensures LineAt(view, index) == LineAt(text, index)
    decreases index
  {
    if index > 0 {
      SameLines(text, keepTests, view, index - 1);
      assert view[index - 1] == Seen(text, keepTests, index - 1);
    }
  }

  /** What the buffer holds once the tests before at have been handled. */
  ghost predicate SplitSoFar(text: string, keepTests: bool, at: nat, out: seq<char>) {
    && at <= |text| == |out|
    && (forall k :: 0 <= k < at ==> out[k] == Seen(text, keepTests, k))
    && (forall k :: at <= k < |text| ==> out[k] == if keepTests then Blank(text[k]) else text[k])
    && (forall k: nat :: at <= k < |text| ==> (InTest(text, 0, k) <==> InTest(text, at, k)))
  }

  lemma {:induction false} SplitStep(text: string, keepTests: bool, at: nat, out: seq<char>, from: nat, to: nat,
                                     next: seq<char>)
    requires SplitSoFar(text, keepTests, at, out) && NextTest(text, at) == Some((from, to))
    requires |next| == |out|
    requires forall k :: 0 <= k < |out| && !(from <= k < to) ==> next[k] == out[k]
    requires forall k :: from <= k < to && k < |out| ==> next[k] == if keepTests then text[k] else Blank(text[k])
    ensures SplitSoFar(text, keepTests, to, next)
  {
    forall k: nat | at <= k < |text|
      ensures InTest(text, 0, k) <==> from <= k < to || InTest(text, to, k)
      ensures InTest(text, to, k) ==> to <= k
    {
      if InTest(text, to, k) { InTestLater(text, to, k); }
    }
  }

  lemma {:induction false} SplitStarts(text: string, keepTests: bool, out: seq<char>)
    requires |out| == |text| && forall k :: 0 <= k < |text| ==> out[k] == if keepTests then Blank(text[k]) else text[k]
    ensures SplitSoFar(text, keepTests, 0, out)
  {
    hide InTest;
  }

  lemma {:induction false} SplitDone(text: string, keepTests: bool, at: nat, out: seq<char>)
    requires SplitSoFar(text, keepTests, at, out) && NextTest(text, at).None?
    ensures IsView(text, keepTests, out)
  {
  }

  /** Blanks the buffer in place, byte for byte. */
  method Split(text: string, keepTests: bool) returns (view: string)
    ensures IsView(text, keepTests, view)
  {
    hide InTest, Seen, SplitSoFar, CloseFrom, Find, Starts, Matches, IsView;
    var out := new char[|text|](i requires 0 <= i < |text| => text[i]);
    if keepTests {
      BlankRange(out, 0, out.Length);
    }
    SplitStarts(text, keepTests, out[..]);
    var at := 0;
    while true
      invariant at <= |text| == out.Length && SplitSoFar(text, keepTests, at, out[..])
      decreases |text| - at
    {
      var found := Find(text, at, MARKER);
      if found.None? { break; }
      var open := Find(text, found.value, "{");
      if open.None? { break; }
      AtBrace(text, open.value);
      var block := Balanced(text, open.value, '{', '}');
      if block.None? { break; }
      var end := block.value.end;
      BlockEnds(text, open.value, end - 1);
      ghost var was := out[..];
      if keepTests {
        CopyRange(out, text, found.value, end);
      } else {
        UnchangedSoFar(text, at, was, found.value);
        BlankRange(out, found.value, end);
      }
      SplitStep(text, keepTests, at, was, found.value, end, out[..]);
      at := end;
    }
    SplitDone(text, keepTests, at, out[..]);
    view := out[..];
  }

  lemma {:induction false} AtBrace(text: string, open: nat)
    requires Starts(text, open, "{")
    ensures open < |text| && text[open] == '{'
  {
    assert text[open] == text[open..open + 1][0];
  }

  lemma {:induction false} UnchangedSoFar(text: string, at: nat, out: seq<char>, from: nat)
    requires SplitSoFar(text, false, at, out) && at <= from
    ensures |out| == |text| && forall k :: from <= k < |text| ==> out[k] == text[k]
  {
  }

  method BlankRange(out: array<char>, from: nat, to: nat)
    requires from <= to <= out.Length
    modifies out
    ensures forall k :: 0 <= k < out.Length ==> out[k] == if from <= k < to then Blank(old(out[k])) else old(out[k])
  {
    for i := from to to
      invariant forall k :: 0 <= k < out.Length ==> out[k] == if from <= k < i then Blank(old(out[k])) else old(out[k])
    {
      if out[i] != '\n' { out[i] := ' '; }
    }
  }

  method CopyRange(out: array<char>, text: string, from: nat, to: nat)
    requires from <= to <= out.Length == |text|
    modifies out
    ensures forall k :: 0 <= k < out.Length ==> out[k] == if from <= k < to then text[k] else old(out[k])
  {
    for i := from to to
      invariant forall k :: 0 <= k < out.Length ==> out[k] == if from <= k < i then text[k] else old(out[k])
    {
      out[i] := text[i];
    }
  }
}
