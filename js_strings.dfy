/**
 * The parts of JavaScript's string and array built-ins the handshake relies on:
 * `String.prototype.split` with a non-empty separator, `startsWith`, and
 * `Array.prototype.find` with a `startsWith` test.
 */
module JsStrings {
  import opened Wrappers

  /** `sep` occurs in `s` starting at index `i`. */
  predicate OccursAt(s: string, sep: string, i: int) {
    0 <= i && i + |sep| <= |s| && s[i..i + |sep|] == sep
  }

  /** `sep` does not occur anywhere in `s`. */
  predicate Free(s: string, sep: string) {
    forall i :: 0 <= i <= |s| ==> !OccursAt(s, sep, i)
  }

  /** `s.indexOf(sep, from)`, with "not found" as `None` instead of -1. */
  function IndexFrom(s: string, sep: string, from: nat): (r: Option<nat>)
    requires |sep| > 0
    ensures r.Some? ==> from <= r.value && OccursAt(s, sep, r.value)
    ensures r.Some? ==> forall j :: from <= j < r.value ==> !OccursAt(s, sep, j)
    ensures r.None? ==> forall j :: from <= j <= |s| ==> !OccursAt(s, sep, j)
    decreases |s| - from
  {
    if from + |sep| > |s| then None
    else if s[from..from + |sep|] == sep then Some(from)
    else IndexFrom(s, sep, from + 1)
  }

  /** `s.indexOf(sep)`: the first occurrence of `sep` in `s`. */
  function IndexOf(s: string, sep: string): (r: Option<nat>)
    requires |sep| > 0
    ensures r.Some? ==> OccursAt(s, sep, r.value)
    ensures r.Some? ==> forall j :: 0 <= j < r.value ==> !OccursAt(s, sep, j)
    ensures r.None? <==> Free(s, sep)
  {
    IndexFrom(s, sep, 0)
  }

  /** The inverse of `Split`: `parts.join(sep)`. */
  function Join(parts: seq<string>, sep: string): string {
    if |parts| == 0 then ""
    else if |parts| == 1 then parts[0]
    else parts[0] + sep + Join(parts[1..], sep)
  }

  /** A prefix of a string that does not contain `sep` ending before index `k` contains no occurrence. */
  lemma PrefixFree(s: string, sep: string, k: nat)
    requires |sep| > 0 && k <= |s|
    requires forall j :: 0 <= j < k ==> !OccursAt(s, sep, j)
    ensures Free(s[..k], sep)
  {
    forall i | 0 <= i <= k
      ensures !OccursAt(s[..k], sep, i)
    {
      if OccursAt(s[..k], sep, i) {
        assert s[..k][i..i + |sep|] == s[i..i + |sep|];
        assert OccursAt(s, sep, i);
      }
    }
  }

  /**
   * `s.split(sep)` for a non-empty separator: the pieces between the
   * non-overlapping occurrences of `sep`, scanned left to right.
   */
  function Split(s: string, sep: string): (parts: seq<string>)
    requires |sep| > 0
    ensures |parts| >= 1
    decreases |s|
  {
    match IndexOf(s, sep)
    case None => [s]
    case Some(i) => [s[..i]] + Split(s[i + |sep|..], sep)
  }

  /** Joining a first piece onto the rest. */
  lemma JoinCons(first: string, rest: seq<string>, sep: string)
    requires |rest| >= 1
    ensures Join([first] + rest, sep) == first + sep + Join(rest, sep)
  {
  }

  /** A string is its text before, at and after an occurrence. */
  lemma AroundOccurrence(s: string, sep: string, i: nat)
    requires OccursAt(s, sep, i)
    ensures s == s[..i] + sep + s[i + |sep|..]
  {
  }

  /** Splitting at the first occurrence: the text before it, then the split of the text after it. */
  lemma SplitAt(s: string, sep: string, i: nat)
    requires |sep| > 0 && IndexOf(s, sep) == Some(i)
    ensures Split(s, sep) == [s[..i]] + Split(s[i + |sep|..], sep)
    ensures s == s[..i] + sep + s[i + |sep|..]
  {
    AroundOccurrence(s, sep, i);
  }

  /** Splitting never loses text: joining the pieces with the separator gives `s` back. */
  lemma {:induction false} SplitJoin(s: string, sep: string)
    requires |sep| > 0
    ensures Join(Split(s, sep), sep) == s
    decreases |s|
  {
    match IndexOf(s, sep)
    case None =>
    case Some(i) =>
      var tail := s[i + |sep|..];
      SplitJoin(tail, sep);
      SplitAt(s, sep, i);
      JoinCons(s[..i], Split(tail, sep), sep);
  }

  /** No piece of a split contains the separator. */
  lemma {:induction false} SplitPiecesFree(s: string, sep: string)
    requires |sep| > 0
    ensures forall k :: 0 <= k < |Split(s, sep)| ==> Free(Split(s, sep)[k], sep)
    decreases |s|
  {
    match IndexOf(s, sep)
    case None =>
    case Some(i) =>
      PrefixFree(s, sep, i);
      var tail := s[i + |sep|..];
      SplitPiecesFree(tail, sep);
      var parts := Split(s, sep);
      assert parts == [s[..i]] + Split(tail, sep);
      forall k | 0 <= k < |parts| ensures Free(parts[k], sep) {
        if k > 0 { assert parts[k] == Split(tail, sep)[k - 1]; }
      }
  }

  /** The first piece of a split is the text before the first occurrence of the separator. */
  lemma SplitFirst(s: string, sep: string)
    requires |sep| > 0
    ensures Split(s, sep)[0] == match IndexOf(s, sep) case None => s case Some(i) => s[..i]
  {
  }

  /** `s.startsWith(prefix)` */
  predicate StartsWith(s: string, prefix: string) {
    |prefix| <= |s| && s[..|prefix|] == prefix
  }

  /** Index `i` is the first element of `items` that starts with `prefix`. */
  predicate FirstStartingWith(items: seq<string>, prefix: string, i: int) {
    && 0 <= i < |items| && StartsWith(items[i], prefix)
    && forall j :: 0 <= j < i ==> !StartsWith(items[j], prefix)
  }

  /** There is only one first match. */
  lemma FirstStartingWithUnique(items: seq<string>, prefix: string, k: int)
    requires FirstStartingWith(items, prefix, k)
    ensures forall i :: FirstStartingWith(items, prefix, i) ==> i == k
  {
  }

  /** `items.find(x => x.startsWith(prefix))`, as the index of the element found. */
  function FindStartingWith(items: seq<string>, prefix: string): (r: Option<nat>)
    ensures r.Some? ==> FirstStartingWith(items, prefix, r.value)
    ensures r.None? <==> forall j :: 0 <= j < |items| ==> !StartsWith(items[j], prefix)
  {
    if |items| == 0 then None
    else if StartsWith(items[0], prefix) then Some(0)
    else match FindStartingWith(items[1..], prefix)
      case None => None
      case Some(k) => Some(k + 1)
  }
}
