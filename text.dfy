/**
  The Python string operations the upscaler relies on, over `seq<char>`:
  `p in s` (Contains), `s.replace(p, r)` (ReplaceAll), `s.split(p)` (Split),
  and `sep.join(parts)` (Join). Every pattern the program uses is a non-empty
  literal, so the pattern arguments are required to be non-empty.
*/
module Text {

  /** `s` begins with `p`. */
  predicate StartsWith(s: string, p: string) {
    |p| <= |s| && s[..|p|] == p
  }

  /** Python's `p in s`: some position of `s` begins an occurrence of `p`. */
  predicate Contains(s: string, p: string)
    decreases |s|
  {
    StartsWith(s, p) || (|s| > 0 && Contains(s[1..], p))
  }

  /** `p` occurs in `s` at index `i`. */
  predicate OccursAt(s: string, p: string, i: int) {
    0 <= i && i + |p| <= |s| && s[i..i + |p|] == p
  }

  /**
    Python's `s.replace(p, r)`: scans `s` from the left and replaces every
    non-overlapping occurrence of `p` by `r`.
  */
  function ReplaceAll(s: string, p: string, r: string): string
    requires |p| > 0
    decreases |s|
  {
    if s == [] then []
    else if StartsWith(s, p) then r + ReplaceAll(s[|p|..], p, r)
    else [s[0]] + ReplaceAll(s[1..], p, r)
  }

  /**
    Python's `s.split(p)`: the pieces of `s` between the non-overlapping
    occurrences of `p`, found from the left. There is always at least one
    piece, and the first piece is a prefix of `s`.
  */
  function Split(s: string, p: string): (parts: seq<string>)
    requires |p| > 0
    ensures |parts| > 0
    ensures StartsWith(s, parts[0])
    decreases |s|
  {
    if s == [] then [[]]
    else if StartsWith(s, p) then [[]] + Split(s[|p|..], p)
    else
      var rest := Split(s[1..], p);
      [[s[0]] + rest[0]] + rest[1..]
  }

  /** Python's `sep.join(parts)`. */
  function Join(parts: seq<string>, sep: string): string
    decreases |parts|
  {
    if |parts| == 0 then []
    else if |parts| == 1 then parts[0]
    else parts[0] + sep + Join(parts[1..], sep)
  }

  // ---------------------------------------------------------------------
  // Contains
  // ---------------------------------------------------------------------

  /** An occurrence at any index makes `s` contain `p`. */
  lemma {:induction false} OccursContains(s: string, p: string, i: int)
    requires OccursAt(s, p, i)
    ensures Contains(s, p)
    decreases i
  {
    if i > 0 {
      assert s[1..][i - 1..i - 1 + |p|] == s[i..i + |p|];
      OccursContains(s[1..], p, i - 1);
    }
  }

  /** If `s` contains `p`, there is an index where `p` occurs. */
  lemma {:induction false} ContainsOccurs(s: string, p: string) returns (i: int)
    requires Contains(s, p)
    ensures OccursAt(s, p, i)
    decreases |s|
  {
    if StartsWith(s, p) {
      i := 0;
    } else {
      var j := ContainsOccurs(s[1..], p);
      assert s[1..][j..j + |p|] == s[j + 1..j + 1 + |p|];
      i := j + 1;
    }
  }

  /** The recursive definition of Contains agrees with "occurs at some index". */
  lemma ContainsIffOccurs(s: string, p: string)
    ensures Contains(s, p) <==> exists i :: OccursAt(s, p, i)
  {
    if Contains(s, p) {
      var i := ContainsOccurs(s, p);
    }
    forall i | OccursAt(s, p, i) ensures Contains(s, p) {
      OccursContains(s, p, i);
    }
  }

  /** A prefix of `s` that begins with `p` makes `s` begin with `p`. */
  lemma PrefixStartsWith(s: string, q: string, p: string)
    requires StartsWith(s, q) && StartsWith(q, p)
    ensures StartsWith(s, p)
  {
    assert s[..|p|] == q[..|p|];
  }

  // ---------------------------------------------------------------------
  // Join and Split
  // ---------------------------------------------------------------------

  /** Prepending a character to the first piece prepends it to the join. */
  lemma JoinConsHead(c: char, parts: seq<string>, sep: string)
    requires |parts| > 0
    ensures Join([[c] + parts[0]] + parts[1..], sep) == [c] + Join(parts, sep)
  {
    var q := [[c] + parts[0]] + parts[1..];
    assert q[1..] == parts[1..];
  }

  /** Joining the pieces of a split with the same separator gives back `s`. */
  lemma {:induction false} JoinSplit(s: string, p: string)
    requires |p| > 0
    ensures Join(Split(s, p), p) == s
    decreases |s|
  {
    if s == [] {
    } else if StartsWith(s, p) {
      var t := s[|p|..];
      JoinSplit(t, p);
      var parts := [[]] + Split(t, p);
      assert parts[1..] == Split(t, p);
      assert s == p + t;
    } else {
      var rest := Split(s[1..], p);
      JoinSplit(s[1..], p);
      JoinConsHead(s[0], rest, p);
      assert s == [s[0]] + s[1..];
    }
  }

  /** No piece of a split contains the separator. */
  lemma {:induction false} SplitPiecesFree(s: string, p: string)
    requires |p| > 0
    ensures forall i :: 0 <= i < |Split(s, p)| ==> !Contains(Split(s, p)[i], p)
    decreases |s|
  {
    var parts := Split(s, p);
    if s == [] {
    } else if StartsWith(s, p) {
      SplitPiecesFree(s[|p|..], p);
      assert parts == [[]] + Split(s[|p|..], p);
      forall i | 0 <= i < |parts| ensures !Contains(parts[i], p) {
        if i > 0 { assert parts[i] == Split(s[|p|..], p)[i - 1]; }
      }
    } else {
      var rest := Split(s[1..], p);
      SplitPiecesFree(s[1..], p);
      var head := [s[0]] + rest[0];
      assert parts == [head] + rest[1..];
      assert StartsWith(s, head) by {
        assert s[1..][..|rest[0]|] == rest[0];
        assert s[..|head|] == [s[0]] + s[1..][..|rest[0]|];
      }
      assert !StartsWith(head, p) by {
        if StartsWith(head, p) { PrefixStartsWith(s, head, p); }
      }
      assert head[1..] == rest[0];
      forall i | 0 <= i < |parts| ensures !Contains(parts[i], p) {
        if i > 0 { assert parts[i] == rest[i]; }
      }
    }
  }

  /** A string with no occurrence of `p` splits into the single piece `s`. */
  lemma {:induction false} SplitAbsent(s: string, p: string)
    requires |p| > 0 && !Contains(s, p)
    ensures Split(s, p) == [s]
    decreases |s|
  {
    if s != [] {
      SplitAbsent(s[1..], p);
      assert s == [s[0]] + s[1..];
    }
  }

  // ---------------------------------------------------------------------
  // ReplaceAll
  // ---------------------------------------------------------------------

  /** `s.replace(p, r) == r.join(s.split(p))`. */
  lemma {:induction false} ReplaceAllIsJoinSplit(s: string, p: string, r: string)
    requires |p| > 0
    ensures ReplaceAll(s, p, r) == Join(Split(s, p), r)
    decreases |s|
  {
    if s == [] {
    } else if StartsWith(s, p) {
      var t := s[|p|..];
      ReplaceAllIsJoinSplit(t, p, r);
      var parts := [[]] + Split(t, p);
      assert parts[1..] == Split(t, p);
    } else {
      ReplaceAllIsJoinSplit(s[1..], p, r);
      JoinConsHead(s[0], Split(s[1..], p), r);
    }
  }

  /**
    What ReplaceAll does, stated without its scanning loop: `s` is the join
    by `p` of pieces none of which contains `p`, and the result is the join
    of those same pieces by `r`: nothing of `s` outside the replaced
    occurrences changes. For a pattern that can overlap itself (`aa` in
    `aaa`) several such piece lists exist and this alone does not say which
    occurrences the left-to-right scan picks; `Split` fixes that choice. No
    pattern the program uses (`/`, `\`, `.mp4`, `480`, `720`) overlaps itself.
  */
  lemma ReplaceAllSpec(s: string, p: string, r: string)
    requires |p| > 0
    ensures var pieces := Split(s, p);
      && Join(pieces, p) == s
      && ReplaceAll(s, p, r) == Join(pieces, r)
      && forall i :: 0 <= i < |pieces| ==> !Contains(pieces[i], p)
  {
    JoinSplit(s, p);
    ReplaceAllIsJoinSplit(s, p, r);
    SplitPiecesFree(s, p);
  }

  /** Without an occurrence of `p`, ReplaceAll returns `s` unchanged. */
  lemma {:induction false} ReplaceAllAbsent(s: string, p: string, r: string)
    requires |p| > 0 && !Contains(s, p)
    ensures ReplaceAll(s, p, r) == s
    decreases |s|
  {
    if s != [] {
      ReplaceAllAbsent(s[1..], p, r);
      assert s == [s[0]] + s[1..];
    }
  }

  /** Replacing by a pattern of the same length keeps the length. */
  lemma {:induction false} ReplaceAllLength(s: string, p: string, r: string)
    requires |p| > 0 && |r| == |p|
    ensures |ReplaceAll(s, p, r)| == |s|
    decreases |s|
  {
    if s == [] {
    } else if StartsWith(s, p) {
      ReplaceAllLength(s[|p|..], p, r);
    } else {
      ReplaceAllLength(s[1..], p, r);
    }
  }

  /**
    Replacing by a different pattern of the same length changes `s` exactly
    when `s` contains the pattern.
  */
  lemma {:induction false} ReplaceAllChanges(s: string, p: string, r: string)
    requires |p| > 0 && |r| == |p| && r != p
    ensures ReplaceAll(s, p, r) == s <==> !Contains(s, p)
    decreases |s|
  {
    if s == [] {
    } else if StartsWith(s, p) {
      var t := ReplaceAll(s[|p|..], p, r);
      assert (r + t)[..|p|] == r;
      assert s[..|p|] == p;
    } else {
      ReplaceAllChanges(s[1..], p, r);
      assert s == [s[0]] + s[1..];
      assert ([s[0]] + ReplaceAll(s[1..], p, r))[1..] == ReplaceAll(s[1..], p, r);
    }
  }

  /**
    Replacing one character by another, position by position: the length is
    kept, every `a` becomes `b`, and every other character stays.
  */
  lemma {:induction false} ReplaceCharPointwise(s: string, a: char, b: char)
    ensures |ReplaceAll(s, [a], [b])| == |s|
    ensures forall i :: 0 <= i < |s| ==>
      ReplaceAll(s, [a], [b])[i] == if s[i] == a then b else s[i]
    decreases |s|
  {
    if s != [] {
      ReplaceCharPointwise(s[1..], a, b);
      var t := ReplaceAll(s[1..], [a], [b]);
      assert StartsWith(s, [a]) <==> s[0] == a;
      assert ReplaceAll(s, [a], [b]) == [if s[0] == a then b else s[0]] + t;
      forall i | 0 <= i < |s|
        ensures ReplaceAll(s, [a], [b])[i] == if s[i] == a then b else s[i]
      {
        if i > 0 { assert s[i] == s[1..][i - 1]; }
      }
    }
  }
}
