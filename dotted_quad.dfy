/**
 * The extractor `fetchIpFromString`: Go's RE2 `Find` with the fixed pattern
 * `\d{1,3}\.\d{1,3}\.\d{1,3}\.\d{1,3}`, run on bytes.
 *
 * The reference semantics is stated first: where the pattern can match
 * (`Admits`), which of several matches at one start backtracking priority
 * prefers (`FirstAt`), and that the leftmost start wins (`LeftmostFirst`).
 * The matcher (`DigitRun`, `MatchAt`, `Locate`, `Find`) is then proved to
 * compute exactly that.
 */
module DottedQuad {
  import opened Wrappers
  import opened Bytes

  /** The lengths chosen for the four `\d{1,3}` groups of one match. */
  datatype Split = Split(l1: nat, l2: nat, l3: nat, l4: nat)

  /** `s[p..p + len]` is one `\d{1,3}` group. */
  predicate GroupAt(s: seq<byte>, p: nat, len: nat) {
    && 1 <= len <= 3
    && p + len <= |s|
    && forall k :: p <= k < p + len ==> IsDigit(s[k])
  }

  predicate DotAt(s: seq<byte>, p: nat) {
    p < |s| && s[p] == Dot
  }

  function Second(i: nat, sp: Split): nat { i + sp.l1 + 1 }
  function Third(i: nat, sp: Split): nat { Second(i, sp) + sp.l2 + 1 }
  function Fourth(i: nat, sp: Split): nat { Third(i, sp) + sp.l3 + 1 }

  /** One past the last byte of the match that starts at `i` and splits as `sp`. */
  function End(i: nat, sp: Split): nat { Fourth(i, sp) + sp.l4 }

  /** The pattern matches `s[i..End(i, sp)]` with group lengths `sp`. */
  predicate Admits(s: seq<byte>, i: nat, sp: Split) {
    && GroupAt(s, i, sp.l1)
    && DotAt(s, i + sp.l1)
    && GroupAt(s, Second(i, sp), sp.l2)
    && DotAt(s, Second(i, sp) + sp.l2)
    && GroupAt(s, Third(i, sp), sp.l3)
    && DotAt(s, Third(i, sp) + sp.l3)
    && GroupAt(s, Fourth(i, sp), sp.l4)
  }

  /**
   * Backtracking priority of RE2's leftmost-first mode: each greedy
   * `\d{1,3}` tries the longer length first, and an earlier group's choice is
   * made before a later one's, so `a` is tried before `b` exactly when its
   * lengths are lexicographically larger.
   */
  predicate PriorTo(a: Split, b: Split) {
    || a.l1 > b.l1
    || (a.l1 == b.l1 && a.l2 > b.l2)
    || (a.l1 == b.l1 && a.l2 == b.l2 && a.l3 > b.l3)
    || (a.l1 == b.l1 && a.l2 == b.l2 && a.l3 == b.l3 && a.l4 > b.l4)
  }

  /** `sp` is the match at `i` that the regular expression reports. */
  ghost predicate FirstAt(s: seq<byte>, i: nat, sp: Split) {
    && Admits(s, i, sp)
    && forall other :: Admits(s, i, other) && other != sp ==> PriorTo(sp, other)
  }

  /** `Find` reports the match at `i` split as `sp`: no earlier start admits one. */
  ghost predicate LeftmostFirst(s: seq<byte>, i: nat, sp: Split) {
    && FirstAt(s, i, sp)
    && forall j: nat, other :: j < i ==> !Admits(s, j, other)
  }

  /** A whole string of the form `d.d.d.d`, each `d` one to three ASCII digits. */
  ghost predicate IsDottedQuad(w: seq<byte>) {
    exists sp :: Admits(w, 0, sp) && End(0, sp) == |w|
  }

  /** `w` is a contiguous piece of `s`. */
  ghost predicate IsSliceOf(w: seq<byte>, s: seq<byte>) {
    exists i, j :: 0 <= i <= j <= |s| && w == s[i..j]
  }

  // ---------------------------------------------------------------------
  // The matcher

  /** Length of the run of digits that starts at `p`. */
  function DigitRun(s: seq<byte>, p: nat): (r: nat)
    requires p <= |s|
    ensures p + r <= |s|
    ensures forall k :: p <= k < p + r ==> IsDigit(s[k])
    ensures p + r == |s| || !IsDigit(s[p + r])
    decreases |s| - p
  {
    if p < |s| && IsDigit(s[p]) then 1 + DigitRun(s, p + 1) else 0
  }

  /**
   * One of the first three groups: the whole digit run at `p`, which must be
   * one to three digits long and be followed by a dot.
   */
  function DottedGroup(s: seq<byte>, p: nat): (r: Option<nat>)
    requires p <= |s|
    ensures r.Some? ==> GroupAt(s, p, r.value) && DotAt(s, p + r.value)
  {
    var run := DigitRun(s, p);
    if 1 <= run <= 3 && DotAt(s, p + run) then Some(run) else None
  }

  /**
   * The match starting at `i`, if any: three dotted groups, then the first
   * (at most three) digits of the run that follows the third dot.
   */
  function MatchAt(s: seq<byte>, i: nat): (m: Option<Split>)
    requires i <= |s|
    ensures m.Some? ==> Admits(s, i, m.value)
  {
    match DottedGroup(s, i)
    case None => None
    case Some(l1) =>
      match DottedGroup(s, i + l1 + 1)
      case None => None
      case Some(l2) =>
        match DottedGroup(s, i + l1 + 1 + l2 + 1)
        case None => None
        case Some(l3) =>
          var run := DigitRun(s, i + l1 + 1 + l2 + 1 + l3 + 1);
          if run == 0 then None
          else Some(Split(l1, l2, l3, if run < 3 then run else 3))
  }

  /** The first start position at or after `from` where a match begins. */
  function Locate(s: seq<byte>, from: nat): (m: Option<(nat, Split)>)
    requires from <= |s|
    ensures m.Some? ==> from <= m.value.0 <= |s| && Admits(s, m.value.0, m.value.1)
    decreases |s| - from
  {
    match MatchAt(s, from)
    case Some(sp) => Some((from, sp))
    case None => if from == |s| then None else Locate(s, from + 1)
  }

  /**
   * `fetchIpFromString.Find`: the leftmost match, or the empty slice. A
   * non-empty result is a contiguous piece of the input that has the form of
   * four groups of one to three digits separated by dots; group values are
   * not range-checked. `FindIsLeftmostFirst` says which piece it is.
   */
  function Find(s: seq<byte>): (r: seq<byte>)
    ensures r == [] || (IsSliceOf(r, s) && IsDottedQuad(r))
  {
    match Locate(s, 0)
    case None => []
    case Some((i, sp)) =>
      AdmitsSlice(s, i, sp);
      assert Admits(s[i..End(i, sp)], 0, sp) && End(0, sp) == |s[i..End(i, sp)]|;
      s[i..End(i, sp)]
  }

  // ---------------------------------------------------------------------
  // The matcher computes the reference semantics

  /** A run of `n` digits followed by a non-digit is the whole digit run at `p`. */
  lemma {:induction false} RunIsForced(s: seq<byte>, p: nat, n: nat)
    requires p + n < |s| && !IsDigit(s[p + n])
    requires forall k :: p <= k < p + n ==> IsDigit(s[k])
    ensures DigitRun(s, p) == n
    decreases n
  {
    if n > 0 {
      RunIsForced(s, p + 1, n - 1);
    }
  }

  /** Any `n` digits starting at `p` lie within the digit run at `p`. */
  lemma {:induction false} RunCovers(s: seq<byte>, p: nat, n: nat)
    requires p + n <= |s|
    requires forall k :: p <= k < p + n ==> IsDigit(s[k])
    ensures n <= DigitRun(s, p)
    decreases n
  {
    if n > 0 {
      RunCovers(s, p + 1, n - 1);
    }
  }

  /**
   * Every match at `i` has the same first three groups as `MatchAt`'s and a
   * last group no longer than `MatchAt`'s.
   */
  lemma MatchAtDominates(s: seq<byte>, i: nat, other: Split)
    requires Admits(s, i, other)
    ensures MatchAt(s, i).Some?
    ensures other.l1 == MatchAt(s, i).value.l1
    ensures other.l2 == MatchAt(s, i).value.l2
    ensures other.l3 == MatchAt(s, i).value.l3
    ensures other.l4 <= MatchAt(s, i).value.l4
  {
    var p2, p3, p4 := Second(i, other), Third(i, other), Fourth(i, other);
    RunIsForced(s, i, other.l1);
    assert DottedGroup(s, i) == Some(other.l1);
    RunIsForced(s, p2, other.l2);
    assert DottedGroup(s, p2) == Some(other.l2);
    RunIsForced(s, p3, other.l3);
    assert DottedGroup(s, p3) == Some(other.l3);
    RunCovers(s, p4, other.l4);
    assert other.l4 <= DigitRun(s, p4);
  }

  /**
   * The characterisation is exact: `MatchAt` finds a match at `i` iff the
   * pattern admits one there, and it is the one backtracking reports.
   */
  lemma MatchAtIsFirst(s: seq<byte>, i: nat)
    requires i <= |s|
    ensures MatchAt(s, i).None? <==> forall sp :: !Admits(s, i, sp)
    ensures MatchAt(s, i).Some? ==> FirstAt(s, i, MatchAt(s, i).value)
  {
    forall other | Admits(s, i, other)
      ensures MatchAt(s, i).Some?
      ensures other != MatchAt(s, i).value ==> PriorTo(MatchAt(s, i).value, other)
    {
      MatchAtDominates(s, i, other);
    }
  }

  /** Scanning from `from`, with no match before it, finds the leftmost-first match. */
  lemma {:induction false} LocateIsLeftmost(s: seq<byte>, from: nat)
    requires from <= |s|
    requires forall j: nat, sp :: j < from ==> !Admits(s, j, sp)
    ensures Locate(s, from).None? <==> forall j: nat, sp :: !Admits(s, j, sp)
    ensures Locate(s, from).Some? ==> LeftmostFirst(s, Locate(s, from).value.0, Locate(s, from).value.1)
    decreases |s| - from
  {
    MatchAtIsFirst(s, from);
    if MatchAt(s, from).None? {
      if from == |s| {
        forall j: nat, sp
          ensures !Admits(s, j, sp)
        {
          if j > from {
            assert !GroupAt(s, j, sp.l1);
          }
        }
      } else {
        LocateIsLeftmost(s, from + 1);
      }
    }
  }

  /** Two leftmost-first matches are the same match. */
  lemma LeftmostFirstUnique(s: seq<byte>, i: nat, a: Split, j: nat, b: Split)
    requires LeftmostFirst(s, i, a) && LeftmostFirst(s, j, b)
    ensures i == j && a == b
  {
  }

  /**
   * `Find` returns the empty slice exactly when the pattern matches nowhere,
   * and otherwise the leftmost-first match, which always exists then.
   */
  lemma FindIsLeftmostFirst(s: seq<byte>)
    ensures Find(s) == [] <==> forall j: nat, sp :: !Admits(s, j, sp)
    ensures Find(s) != [] ==> exists i: nat, sp :: LeftmostFirst(s, i, sp) && Find(s) == s[i..End(i, sp)]
    ensures forall i: nat, sp :: LeftmostFirst(s, i, sp) ==> Find(s) == s[i..End(i, sp)]
  {
    LocateIsLeftmost(s, 0);
    match Locate(s, 0)
    case None =>
    case Some((i, sp)) =>
      assert |s[i..End(i, sp)]| > 0;
      forall i': nat, sp' | LeftmostFirst(s, i', sp')
        ensures Find(s) == s[i'..End(i', sp')]
      {
        LeftmostFirstUnique(s, i, sp, i', sp');
      }
  }

  /** A match, cut out of its surroundings, is a whole dotted quad. */
  lemma AdmitsSlice(s: seq<byte>, i: nat, sp: Split)
    requires Admits(s, i, sp)
    ensures End(i, sp) <= |s|
    ensures Admits(s[i..End(i, sp)], 0, sp)
  {
    var w := s[i..End(i, sp)];
    assert forall k :: 0 <= k < |w| ==> w[k] == s[i + k];
  }

  /**
   * Text without any `.` (an IPv6 literal such as `2001:db8::1`) yields the
   * empty slice.
   */
  lemma WithoutDotNothingFound(s: seq<byte>)
    requires forall k :: 0 <= k < |s| ==> s[k] != Dot
    ensures Find(s) == []
  {
    forall j: nat, sp
      ensures !Admits(s, j, sp)
    {
      if j + sp.l1 < |s| {
        assert s[j + sp.l1] != Dot;
      }
    }
    FindIsLeftmostFirst(s);
  }
}
