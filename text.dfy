/**
 * The parts of JavaScript's String API the plugin relies on, over `seq<char>`:
 * `includes` and `split` with a non-empty separator. They are stated through
 * `IndexFrom`, a search that walks an index through the string as
 * `indexOf(t, from)` does, and `StartsWith`.
 */
module Text {
  import opened Wrappers

  /** `t` occurs in `s` starting at index `k`. */
  ghost predicate OccursAt(s: string, t: string, k: int) {
    0 <= k && k + |t| <= |s| && s[k..k + |t|] == t
  }

  predicate StartsWith(s: string, p: string) {
    |p| <= |s| && s[..|p|] == p
  }

  predicate EndsWith(s: string, p: string) {
    |p| <= |s| && s[|s| - |p|..] == p
  }

  /** `s.indexOf(t, from)`, None for -1; `IndexFromFirst` says which index it is. */
  function IndexFrom(s: string, t: string, from: nat): (r: Option<nat>)
    requires from <= |s|
    ensures r.Some? ==> from <= r.value && r.value + |t| <= |s|
    decreases |s| - from
  {
    if from + |t| > |s| then None
    else if s[from..from + |t|] == t then Some(from)
    else IndexFrom(s, t, from + 1)
  }

  /** `indexOf` from `from` finds the first occurrence at or after `from`, and None only when there is none. */
  lemma {:induction false} IndexFromFirst(s: string, t: string, from: nat)
    requires from <= |s|
    ensures IndexFrom(s, t, from).Some? ==> OccursAt(s, t, IndexFrom(s, t, from).value)
    ensures IndexFrom(s, t, from).Some? ==>
      forall j :: from <= j < IndexFrom(s, t, from).value ==> !OccursAt(s, t, j)
    ensures IndexFrom(s, t, from).None? ==> forall j :: from <= j ==> !OccursAt(s, t, j)
    decreases |s| - from
  {
    if from + |t| > |s| {
    } else if s[from..from + |t|] != t {
      IndexFromFirst(s, t, from + 1);
    }
  }

  /** `s.indexOf(t)`. */
  function IndexOf(s: string, t: string): (r: Option<nat>)
    ensures r.Some? ==> r.value + |t| <= |s|
  {
    IndexFrom(s, t, 0)
  }

  /** `indexOf` finds the first occurrence of `t` in `s`, and None only when there is none. */
  lemma IndexOfFirst(s: string, t: string)
    ensures IndexOf(s, t).Some? ==> OccursAt(s, t, IndexOf(s, t).value)
    ensures IndexOf(s, t).Some? ==> forall j :: 0 <= j < IndexOf(s, t).value ==> !OccursAt(s, t, j)
    ensures IndexOf(s, t).None? ==> forall j :: !OccursAt(s, t, j)
  {
    IndexFromFirst(s, t, 0);
  }

  /** `s.includes(t)`; `IncludesOccurs` says what it means. */
  predicate Includes(s: string, t: string) {
    IndexOf(s, t).Some?
  }

  /** `s.includes(t)` holds exactly when `t` occurs somewhere in `s`. */
  lemma IncludesOccurs(s: string, t: string)
    ensures Includes(s, t) <==> exists k :: OccursAt(s, t, k)
  {
    IndexOfFirst(s, t);
  }

  /** A slice `s[i..j]` contains `t` only where `s` itself has an occurrence inside `[i, j)`. */
  lemma SliceOccurrence(s: string, t: string, i: nat, j: nat)
    requires i <= j <= |s|
    requires Includes(s[i..j], t)
    ensures exists k :: i <= k && k + |t| <= j && OccursAt(s, t, k)
  {
    IncludesOccurs(s[i..j], t);
    var k :| OccursAt(s[i..j], t, k);
    forall m | 0 <= m < |t| ensures s[i + k..i + k + |t|][m] == t[m] {
      assert t[m] == s[i..j][k..k + |t|][m];
    }
    assert OccursAt(s, t, i + k);
  }

  /** Around an occurrence of `sep` at `k`, `s[from..]` is the text before it, `sep`, and the text after it. */
  lemma CutAround(s: string, sep: string, from: nat, k: nat)
    requires from <= k && OccursAt(s, sep, k)
    ensures s[from..] == s[from..k] + sep + s[k + |sep|..]
  {
  }

  /** The pieces of `s[from..]` split at `sep`, scanning left to right. */
  function SplitFrom(s: string, sep: string, from: nat): (r: seq<string>)
    requires |sep| > 0 && from <= |s|
    ensures |r| >= 1
    decreases |s| - from
  {
    match IndexFrom(s, sep, from)
    case None => [s[from..]]
    case Some(k) => [s[from..k]] + SplitFrom(s, sep, k + |sep|)
  }

  /**
   * `s.split(sep)` for a non-empty separator: the pieces between the
   * occurrences of `sep` found scanning left to right.
   */
  function Split(s: string, sep: string): (r: seq<string>)
    requires |sep| > 0
    ensures |r| >= 1
  {
    SplitFrom(s, sep, 0)
  }

  /** `parts.join(sep)`. */
  function Join(parts: seq<string>, sep: string): string
    requires |parts| >= 1
  {
    if |parts| == 1 then parts[0] else parts[0] + sep + Join(parts[1..], sep)
  }

  lemma {:induction false} JoinSplitFrom(s: string, sep: string, from: nat)
    requires |sep| > 0 && from <= |s|
    ensures Join(SplitFrom(s, sep, from), sep) == s[from..]
    decreases |s| - from
  {
    match IndexFrom(s, sep, from)
    case None =>
    case Some(k) =>
      JoinSplitFrom(s, sep, k + |sep|);
      var parts := SplitFrom(s, sep, from);
      var rest := SplitFrom(s, sep, k + |sep|);
      assert parts == [s[from..k]] + rest;
      assert parts[1..] == rest;
      assert Join(parts, sep) == s[from..k] + sep + Join(rest, sep);
      IndexFromFirst(s, sep, from);
      CutAround(s, sep, from, k);
  }

  /** Joining the pieces of a split with the same separator gives the string back. */
  lemma JoinSplit(s: string, sep: string)
    requires |sep| > 0
    ensures Join(Split(s, sep), sep) == s
  {
    JoinSplitFrom(s, sep, 0);
  }

  /** No piece of `s[from..]` contains the separator. */
  lemma {:induction false} SplitFromPiecesFree(s: string, sep: string, from: nat)
    requires |sep| > 0 && from <= |s|
    ensures forall i :: 0 <= i < |SplitFrom(s, sep, from)| ==> !Includes(SplitFrom(s, sep, from)[i], sep)
    decreases |s| - from
  {
    IndexFromFirst(s, sep, from);
    match IndexFrom(s, sep, from)
    case None =>
      if Includes(s[from..], sep) {
        assert s[from..|s|] == s[from..];
        SliceOccurrence(s, sep, from, |s|);
      }
    case Some(k) =>
      SplitFromPiecesFree(s, sep, k + |sep|);
      if Includes(s[from..k], sep) {
        SliceOccurrence(s, sep, from, k);
      }
      assert SplitFrom(s, sep, from) == [s[from..k]] + SplitFrom(s, sep, k + |sep|);
  }

  /** No piece produced by Split contains the separator. */
  lemma SplitPiecesFree(s: string, sep: string)
    requires |sep| > 0
    ensures forall i :: 0 <= i < |Split(s, sep)| ==> !Includes(Split(s, sep)[i], sep)
  {
    SplitFromPiecesFree(s, sep, 0);
  }

  /** The last element of a non-empty sequence of pieces (`Array.prototype.pop`'s result). */
  function Last(parts: seq<string>): string
    requires |parts| >= 1
  {
    parts[|parts| - 1]
  }

  /** Where the last piece of `s[from..]` starts: just after the last separator matched, or at `from`. */
  function LastStart(s: string, sep: string, from: nat): (r: nat)
    requires |sep| > 0 && from <= |s|
    ensures from <= r <= |s|
    decreases |s| - from
  {
    match IndexFrom(s, sep, from)
    case None => from
    case Some(k) => LastStart(s, sep, k + |sep|)
  }

  /** The last piece of `s[from..]` is `s[LastStart..]`. */
  lemma {:induction false} LastPieceFrom(s: string, sep: string, from: nat)
    requires |sep| > 0 && from <= |s|
    ensures Last(SplitFrom(s, sep, from)) == s[LastStart(s, sep, from)..]
    decreases |s| - from
  {
    match IndexFrom(s, sep, from)
    case None =>
    case Some(k) =>
      LastPieceFrom(s, sep, k + |sep|);
      var rest := SplitFrom(s, sep, k + |sep|);
      var parts := SplitFrom(s, sep, from);
      assert parts == [s[from..k]] + rest;
      assert parts[|parts| - 1] == rest[|rest| - 1];
  }

  /** The last piece starts at `from` exactly when no separator follows `from`. */
  lemma LastStartAtFrom(s: string, sep: string, from: nat)
    requires |sep| > 0 && from <= |s|
    ensures LastStart(s, sep, from) == from <==> IndexFrom(s, sep, from).None?
  {
    match IndexFrom(s, sep, from)
    case None =>
    case Some(k) =>
      assert LastStart(s, sep, from) == LastStart(s, sep, k + |sep|) >= k + |sep| > from;
  }

  /** A last piece that starts after `from` starts right after an occurrence of `sep`. */
  lemma {:induction false} LastStartFollowsSeparator(s: string, sep: string, from: nat)
    requires |sep| > 0 && from <= |s|
    ensures LastStart(s, sep, from) > from ==> OccursAt(s, sep, LastStart(s, sep, from) - |sep|)
    decreases |s| - from
  {
    IndexFromFirst(s, sep, from);
    match IndexFrom(s, sep, from)
    case None =>
    case Some(k) =>
      var next := k + |sep|;
      assert OccursAt(s, sep, k);
      assert LastStart(s, sep, from) == LastStart(s, sep, next);
      LastStartFollowsSeparator(s, sep, next);
      if LastStart(s, sep, next) == next {
        assert LastStart(s, sep, from) - |sep| == k;
      }
  }

  /** No separator occurs at or after the start of the last piece. */
  lemma {:induction false} LastStartSeparatorFree(s: string, sep: string, from: nat)
    requires |sep| > 0 && from <= |s|
    ensures forall j :: LastStart(s, sep, from) <= j ==> !OccursAt(s, sep, j)
    decreases |s| - from
  {
    IndexFromFirst(s, sep, from);
    match IndexFrom(s, sep, from)
    case None =>
      assert LastStart(s, sep, from) == from;
    case Some(k) =>
      assert LastStart(s, sep, from) == LastStart(s, sep, k + |sep|);
      LastStartSeparatorFree(s, sep, k + |sep|);
  }

  /**
   * The last piece starts at `from` exactly when no separator follows `from`,
   * otherwise right after an occurrence of `sep`, and no separator occurs from
   * there on.
   */
  lemma LastStartAfterSeparator(s: string, sep: string, from: nat)
    requires |sep| > 0 && from <= |s|
    ensures LastStart(s, sep, from) == from <==> IndexFrom(s, sep, from).None?
    ensures LastStart(s, sep, from) > from ==> OccursAt(s, sep, LastStart(s, sep, from) - |sep|)
    ensures forall j :: LastStart(s, sep, from) <= j ==> !OccursAt(s, sep, j)
  {
    LastStartAtFrom(s, sep, from);
    LastStartFollowsSeparator(s, sep, from);
    LastStartSeparatorFree(s, sep, from);
  }

  /**
   * The last piece of a split is what follows the final separator matched:
   * `s` is `pre + last`, `last` has no separator, and `pre` is empty exactly
   * when `s` has no separator and otherwise ends with one.
   */
  lemma SplitLast(s: string, sep: string)
    requires |sep| > 0
    ensures |Last(Split(s, sep))| <= |s|
    ensures var last := Last(Split(s, sep));
      && s == s[..|s| - |last|] + last
      && !Includes(last, sep)
      && (!Includes(s, sep) <==> last == s)
      && (Includes(s, sep) ==> EndsWith(s[..|s| - |last|], sep))
  {
    LastPieceFrom(s, sep, 0);
    LastStartAfterSeparator(s, sep, 0);
    var r := LastStart(s, sep, 0);
    var last := s[r..];
    assert Last(Split(s, sep)) == last;
    assert s[..|s| - |last|] == s[..r];
    if Includes(last, sep) {
      assert s[r..|s|] == last;
      SliceOccurrence(s, sep, r, |s|);
    }
    if r > 0 {
      assert s[..r][r - |sep|..] == s[r - |sep|..r];
    }
  }
}
