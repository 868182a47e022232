/**
 * SString's construction from a C string and TSplitString::Split, which cuts
 * an input at each occurrence of a delimiter, optionally stopping after
 * `maxAmount` parts and padding with empty parts up to `minAmount`.
 *
 * Parts are modelled as the text between the cursor and the next delimiter.
 * The source hands out pointers into a copy of the input in which the first
 * character of every matched delimiter is overwritten with a terminator; the
 * two views agree whenever the input holds no NUL character.
 */
module SplitString {
  import opened Common

  /** `SString(const char*)`: a null pointer gives the empty string. */
  function FromCString(text: Option<string>): (s: string)
    ensures text.None? ==> s == ""
    ensures text.Some? ==> s == text.value
  {
    if text.Some? then text.value else ""
  }

  /** `delim` occurs in `s` starting at `k`. */
  predicate OccursAt(s: string, delim: string, k: int)
  {
    0 <= k && k + |delim| <= |s| && s[k..k + |delim|] == delim
  }

  /** `s` contains `delim` somewhere. */
  ghost predicate Contains(s: string, delim: string)
  {
    exists k :: OccursAt(s, delim, k)
  }

  /** `std::string::find(delim, from)`: the first occurrence at or after `from`. */
  function Find(s: string, delim: string, from: nat): (pos: Option<nat>)
    ensures pos.Some? ==> from <= pos.value && OccursAt(s, delim, pos.value)
    ensures pos.Some? ==> forall k :: from <= k < pos.value ==> !OccursAt(s, delim, k)
    ensures pos.None? ==> forall k :: from <= k ==> !OccursAt(s, delim, k)
    decreases |s| - from
  {
    if from + |delim| > |s| then None
    else if s[from..from + |delim|] == delim then Some(from)
    else Find(s, delim, from + 1)
  }

  /**
   * The split loop from cursor `current`, with `pushed` parts already in the
   * result: stop at the end of the input, or when one more part would reach
   * `maxAmount`, and push the remainder; otherwise push the text up to the
   * match and continue after the delimiter. (The source also checks
   * `current <= length` before the last push; that always holds.)
   */
  function SplitFrom(s: string, delim: string, maxAmount: uint32, current: nat, pushed: nat): (parts: seq<string>)
    requires |delim| > 0 && current <= |s|
    ensures |parts| >= 1
    decreases |s| - current
  {
    var pos := Find(s, delim, current);
    if pos.None? || (maxAmount > 0 && maxAmount <= pushed + 1) then
      [s[current..]]
    else
      [s[current..pos.value]] + SplitFrom(s, delim, maxAmount, pos.value + |delim|, pushed + 1)
  }

  /**
   * A null C string splits like the empty string: into empty parts only, one
   * of them or as many as the minimum asks for.
   */
  lemma NullTextSplitsToEmpty(delim: string, maxAmount: uint32, minAmount: uint32)
    requires |delim| > 0
    ensures Split(FromCString(None), delim, maxAmount, minAmount) == Pad([""], minAmount)
    ensures var parts := Split(FromCString(None), delim, maxAmount, minAmount);
            && |parts| == (if minAmount > 1 then minAmount as int else 1)
            && forall k :: 0 <= k < |parts| ==> parts[k] == ""
  {
  }

  /** The parts padded with empty strings up to `minAmount`. */
  function Pad(parts: seq<string>, minAmount: nat): (r: seq<string>)
    ensures |r| == if |parts| < minAmount then minAmount else |parts|
    ensures r[..|parts|] == parts
    ensures forall k :: |parts| <= k < |r| ==> r[k] == ""
    decreases minAmount - |parts|
  {
    if |parts| < minAmount then Pad(parts + [""], minAmount) else parts
  }

  /**
   * TSplitString::Split. The delimiter must be non-empty: with an empty one
   * and no maximum, `find` keeps matching at the cursor and the loop never ends.
   */
  function Split(s: string, delim: string, maxAmount: uint32, minAmount: uint32): (parts: seq<string>)
    requires |delim| > 0
    ensures |parts| >= 1 && |parts| >= minAmount
  {
    Pad(SplitFrom(s, delim, maxAmount, 0, 0), minAmount)
  }

  /** The parts Split finds before padding. */
  function Pieces(s: string, delim: string, maxAmount: uint32): seq<string>
    requires |delim| > 0
  {
    SplitFrom(s, delim, maxAmount, 0, 0)
  }

  /** Joining parts with the delimiter between them. */
  function Join(parts: seq<string>, delim: string): string
    requires |parts| >= 1
  {
    if |parts| == 1 then parts[0] else parts[0] + delim + Join(parts[1..], delim)
  }

  /**
   * Non-overlapping occurrences of `delim` from `i` on, counted by a
   * left-to-right scan that skips past each match.
   */
  function CountMatches(s: string, delim: string, i: nat): nat
    requires |delim| > 0
    decreases |s| - i
  {
    if i + |delim| > |s| then 0
    else if s[i..i + |delim|] == delim then 1 + CountMatches(s, delim, i + |delim|)
    else CountMatches(s, delim, i + 1)
  }

  lemma {:induction false} CountMatchesSkip(s: string, delim: string, i: nat, pos: nat)
    requires |delim| > 0 && i <= pos
    requires forall k :: i <= k < pos ==> !OccursAt(s, delim, k)
    ensures CountMatches(s, delim, i) == CountMatches(s, delim, pos)
    decreases pos - i
  {
    if i < pos {
      assert !OccursAt(s, delim, i);
      CountMatchesSkip(s, delim, i + 1, pos);
    }
  }

  lemma {:induction false} JoinSplitFrom(s: string, delim: string, maxAmount: uint32, current: nat, pushed: nat)
    requires |delim| > 0 && current <= |s|
    ensures Join(SplitFrom(s, delim, maxAmount, current, pushed), delim) == s[current..]
    decreases |s| - current
  {
    var pos := Find(s, delim, current);
    if pos.None? || (maxAmount > 0 && maxAmount <= pushed + 1) {
      assert SplitFrom(s, delim, maxAmount, current, pushed) == [s[current..]];
    } else {
      var p := pos.value;
      var rest := SplitFrom(s, delim, maxAmount, p + |delim|, pushed + 1);
      assert SplitFrom(s, delim, maxAmount, current, pushed) == [s[current..p]] + rest;
      JoinCons(s[current..p], rest, delim);
      JoinSplitFrom(s, delim, maxAmount, p + |delim|, pushed + 1);
      CutAtMatch(s, delim, current, p);
    }
  }

  lemma JoinCons(part: string, rest: seq<string>, delim: string)
    requires |rest| >= 1
    ensures Join([part] + rest, delim) == part + delim + Join(rest, delim)
  {
    assert ([part] + rest)[1..] == rest;
  }

  /** The text from `current` is the text up to a match at `p`, the delimiter, and the text after it. */
  lemma CutAtMatch(s: string, delim: string, current: nat, p: nat)
    requires current <= p && OccursAt(s, delim, p)
    ensures s[current..] == s[current..p] + delim + s[p + |delim|..]
  {
    assert s[current..] == s[current..p] + s[p..p + |delim|] + s[p + |delim|..];
  }

  /** Joining the parts Split finds, with the delimiter, gives back the input. */
  lemma JoinInvertsSplit(s: string, delim: string, maxAmount: uint32)
    requires |delim| > 0
    ensures Join(Pieces(s, delim, maxAmount), delim) == s
  {
    JoinSplitFrom(s, delim, maxAmount, 0, 0);
  }

  lemma {:induction false} CountSplitFrom(s: string, delim: string, current: nat, pushed: nat)
    requires |delim| > 0 && current <= |s|
    ensures |SplitFrom(s, delim, 0, current, pushed)| == CountMatches(s, delim, current) + 1
    decreases |s| - current
  {
    var pos := Find(s, delim, current);
    if pos.None? {
      CountMatchesSkip(s, delim, current, |s|);
      assert SplitFrom(s, delim, 0, current, pushed) == [s[current..]];
    } else {
      var p := pos.value;
      CountMatchesSkip(s, delim, current, p);
      assert CountMatches(s, delim, p) == 1 + CountMatches(s, delim, p + |delim|);
      CountSplitFrom(s, delim, p + |delim|, pushed + 1);
      assert SplitFrom(s, delim, 0, current, pushed) == [s[current..p]] + SplitFrom(s, delim, 0, p + |delim|, pushed + 1);
    }
  }

  /** Without a maximum there is one part more than there are delimiter matches. */
  lemma SplitCountsMatches(s: string, delim: string)
    requires |delim| > 0
    ensures |Pieces(s, delim, 0)| == CountMatches(s, delim, 0) + 1
  {
    CountSplitFrom(s, delim, 0, 0);
  }

  lemma {:induction false} BoundSplitFrom(s: string, delim: string, maxAmount: uint32, current: nat, pushed: nat)
    requires |delim| > 0 && current <= |s|
    requires maxAmount > 0 && pushed < maxAmount
    ensures |SplitFrom(s, delim, maxAmount, current, pushed)| <= maxAmount - pushed
    decreases |s| - current
  {
    var pos := Find(s, delim, current);
    if pos.None? || maxAmount <= pushed + 1 {
      assert SplitFrom(s, delim, maxAmount, current, pushed) == [s[current..]];
    } else {
      var p := pos.value;
      var rest := SplitFrom(s, delim, maxAmount, p + |delim|, pushed + 1);
      assert SplitFrom(s, delim, maxAmount, current, pushed) == [s[current..p]] + rest;
      BoundSplitFrom(s, delim, maxAmount, p + |delim|, pushed + 1);
    }
  }

  /** With a maximum, Split finds at most that many parts. */
  lemma SplitRespectsMaximum(s: string, delim: string, maxAmount: uint32)
    requires |delim| > 0 && maxAmount > 0
    ensures |Pieces(s, delim, maxAmount)| <= maxAmount
  {
    BoundSplitFrom(s, delim, maxAmount, 0, 0);
  }

  lemma {:induction false} PartsBeforeLastFree(s: string, delim: string, maxAmount: uint32, current: nat, pushed: nat)
    requires |delim| > 0 && current <= |s|
    ensures forall i :: 0 <= i < |SplitFrom(s, delim, maxAmount, current, pushed)| - 1 ==>
              !Contains(SplitFrom(s, delim, maxAmount, current, pushed)[i], delim)
    decreases |s| - current
  {
    var parts := SplitFrom(s, delim, maxAmount, current, pushed);
    var pos := Find(s, delim, current);
    if pos.None? || (maxAmount > 0 && maxAmount <= pushed + 1) {
      assert parts == [s[current..]];
    } else {
      var p := pos.value;
      var rest := SplitFrom(s, delim, maxAmount, p + |delim|, pushed + 1);
      PartsBeforeLastFree(s, delim, maxAmount, p + |delim|, pushed + 1);
      assert parts == [s[current..p]] + rest;
      forall k | OccursAt(s[current..p], delim, k)
        ensures false
      {
        assert s[current..p][k..k + |delim|] == s[current + k..current + k + |delim|];
        assert OccursAt(s, delim, current + k);
      }
      assert !Contains(parts[0], delim);
      forall i | 0 <= i < |parts| - 1
        ensures !Contains(parts[i], delim)
      {
        if i > 0 {
          assert parts[i] == rest[i - 1] && i - 1 < |rest| - 1;
        }
      }
    }
  }

  /** No part but the last contains the delimiter: each ends at the first match after it starts. */
  lemma NoDelimiterBeforeLastPart(s: string, delim: string, maxAmount: uint32)
    requires |delim| > 0
    ensures forall i :: 0 <= i < |Pieces(s, delim, maxAmount)| - 1 ==>
              !Contains(Pieces(s, delim, maxAmount)[i], delim)
  {
    PartsBeforeLastFree(s, delim, maxAmount, 0, 0);
  }

  /** Split is the pieces followed by empty padding parts. */
  lemma SplitIsPaddedPieces(s: string, delim: string, maxAmount: uint32, minAmount: uint32)
    requires |delim| > 0
    ensures var parts := Split(s, delim, maxAmount, minAmount);
            var pieces := Pieces(s, delim, maxAmount);
            && parts[..|pieces|] == pieces
            && (forall k :: |pieces| <= k < |parts| ==> parts[k] == "")
            && |parts| == if |pieces| < minAmount then minAmount else |pieces|
  {
  }

  /** With a maximum of one, the single piece is the whole input, delimiters and all. */
  lemma MaximumOneKeepsInput(s: string, delim: string)
    requires |delim| > 0
    ensures Pieces(s, delim, 1) == [s]
  {
  }
}
