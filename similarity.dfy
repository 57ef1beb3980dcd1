/**
 * is_similar(a, b): SequenceMatcher(None, a, b).ratio() >= 0.8.
 *
 * ratio() is 2*M / (|a| + |b|), or 1.0 when both strings are empty, where
 * M is the number of characters in the matching blocks. The blocks come
 * from get_matching_blocks: take the longest common block of the two
 * ranges (the longest, then the one starting earliest in `a`, then
 * earliest in `b`, as find_longest_match chooses), and recurse on the
 * ranges to its left and to its right. With no junk function and strings
 * shorter than 200 characters no character is junk or popular.
 */
module Similarity {
  import opened Wrappers
  import opened Text

  /** A common block of length k at position i of `a` and position j of `b`. */
  predicate IsBlockAt(a: string, b: string, i: int, j: int, k: int) {
    0 <= i && 0 <= j && 0 <= k && i + k <= |a| && j + k <= |b| && a[i..i + k] == b[j..j + k]
  }

  /** The block (i, j, k) lies inside a[alo..ahi] and b[blo..bhi]. */
  predicate Within(alo: int, ahi: int, blo: int, bhi: int, i: int, j: int, k: int) {
    alo <= i && i + k <= ahi && blo <= j && j + k <= bhi
  }

  /** (x, y) comes before (i, j): smaller in `a`, or equal in `a` and smaller in `b`. */
  predicate Before(x: int, y: int, i: int, j: int) {
    x < i || (x == i && y < j)
  }

  predicate ValidRanges(a: string, b: string, alo: nat, ahi: nat, blo: nat, bhi: nat) {
    alo <= ahi <= |a| && blo <= bhi <= |b|
  }

  datatype Block = Block(i: nat, j: nat, size: nat)

  /**
   * The first position, scanning from (i, j) in the order of Before, of a
   * common block of length k inside the ranges.
   */
  function FindBlock(a: string, b: string, alo: nat, ahi: nat, blo: nat, bhi: nat, k: nat, i: nat, j: nat)
    : (r: Option<(nat, nat)>)
    requires ValidRanges(a, b, alo, ahi, blo, bhi) && 1 <= k && alo <= i && blo <= j
    ensures r.Some? ==> var (x, y) := r.value;
      Within(alo, ahi, blo, bhi, x, y, k) && IsBlockAt(a, b, x, y, k) && !Before(x, y, i, j)
    ensures forall x, y ::
      Within(alo, ahi, blo, bhi, x, y, k) && !Before(x, y, i, j) && (r.Some? ==> Before(x, y, r.value.0, r.value.1))
      ==> !IsBlockAt(a, b, x, y, k)
    decreases ahi - i, bhi - j
  {
    if i + k > ahi then None
    else if j + k > bhi then FindBlock(a, b, alo, ahi, blo, bhi, k, i + 1, blo)
    else if a[i..i + k] == b[j..j + k] then Some((i, j))
    else FindBlock(a, b, alo, ahi, blo, bhi, k, i, j + 1)
  }

  /** The longest common block of length at most k inside the ranges. */
  function LongestUpTo(a: string, b: string, alo: nat, ahi: nat, blo: nat, bhi: nat, k: nat): (r: Option<Block>)
    requires ValidRanges(a, b, alo, ahi, blo, bhi)
    ensures r.Some? ==>
      && 1 <= r.value.size <= k
      && Within(alo, ahi, blo, bhi, r.value.i, r.value.j, r.value.size)
      && IsBlockAt(a, b, r.value.i, r.value.j, r.value.size)
    ensures r.Some? ==> forall x, y ::
      Within(alo, ahi, blo, bhi, x, y, r.value.size) && Before(x, y, r.value.i, r.value.j)
      ==> !IsBlockAt(a, b, x, y, r.value.size)
    ensures forall x, y, s ::
      1 <= s <= k && (r.Some? ==> r.value.size < s) && Within(alo, ahi, blo, bhi, x, y, s)
      ==> !IsBlockAt(a, b, x, y, s)
    decreases k
  {
    if k == 0 then None
    else
      match FindBlock(a, b, alo, ahi, blo, bhi, k, alo, blo)
      case Some((i, j)) => Some(Block(i, j, k))
      case None => LongestUpTo(a, b, alo, ahi, blo, bhi, k - 1)
  }

  /**
   * find_longest_match(alo, ahi, blo, bhi) when it finds a block: the
   * longest common block inside the ranges, the earliest in `a` among the
   * longest, and the earliest in `b` among those; None when the ranges
   * share no character.
   */
  function LongestMatch(a: string, b: string, alo: nat, ahi: nat, blo: nat, bhi: nat): (r: Option<Block>)
    requires ValidRanges(a, b, alo, ahi, blo, bhi)
    ensures r.Some? ==>
      && 1 <= r.value.size
      && Within(alo, ahi, blo, bhi, r.value.i, r.value.j, r.value.size)
      && IsBlockAt(a, b, r.value.i, r.value.j, r.value.size)
    ensures r.Some? ==> forall x, y ::
      Within(alo, ahi, blo, bhi, x, y, r.value.size) && Before(x, y, r.value.i, r.value.j)
      ==> !IsBlockAt(a, b, x, y, r.value.size)
    ensures forall x, y, s ::
      1 <= s && Within(alo, ahi, blo, bhi, x, y, s) && IsBlockAt(a, b, x, y, s)
      ==> r.Some? && s <= r.value.size
  {
    var k := if ahi - alo <= bhi - blo then ahi - alo else bhi - blo;
    LongestUpTo(a, b, alo, ahi, blo, bhi, k)
  }

  /**
   * The total size of the matching blocks get_matching_blocks finds in
   * a[alo..ahi] and b[blo..bhi]. It never exceeds either range.
   */
  function MatchedIn(a: string, b: string, alo: nat, ahi: nat, blo: nat, bhi: nat): (m: nat)
    requires ValidRanges(a, b, alo, ahi, blo, bhi)
    ensures m <= ahi - alo && m <= bhi - blo
    decreases ahi - alo + bhi - blo
  {
    match LongestMatch(a, b, alo, ahi, blo, bhi)
    case None => 0
    case Some(Block(i, j, k)) =>
      k + MatchedIn(a, b, alo, i, blo, j) + MatchedIn(a, b, i + k, ahi, j + k, bhi)
  }

  /** M: the number of matching characters of `a` and `b`. */
  function Matched(a: string, b: string): (m: nat)
    ensures m <= |a| && m <= |b|
  {
    MatchedIn(a, b, 0, |a|, 0, |b|)
  }

  /**
   * ratio() >= 0.8 in integers: 2*M / (|a| + |b|) >= 4/5 exactly when
   * 5*M >= 2*(|a| + |b|); two empty strings have ratio 1.0.
   */
  predicate IsSimilar(a: string, b: string) {
    if |a| + |b| == 0 then true else 5 * Matched(a, b) >= 2 * (|a| + |b|)
  }

  /** A common block of length k means at least k matching characters. */
  lemma BlockBoundsMatched(a: string, b: string, i: nat, j: nat, k: nat)
    requires 1 <= k && IsBlockAt(a, b, i, j, k)
    ensures Matched(a, b) >= k
  {
    assert Within(0, |a|, 0, |b|, i, j, k);
    var longest := LongestMatch(a, b, 0, |a|, 0, |b|);
    assert longest.Some? && k <= longest.value.size;
  }

  /**
   * When one string occurs in the other, every character of the shorter
   * one is matched.
   */
  lemma ContainedFullyMatched(a: string, b: string)
    requires Contains(b, a) || Contains(a, b)
    ensures Matched(a, b) == if |a| <= |b| then |a| else |b|
  {
    if Contains(b, a) {
      var p :| 0 <= p <= |b| - |a| && OccursAt(b, a, p);
      assert a[0..|a|] == a;
      if |a| > 0 {
        BlockBoundsMatched(a, b, 0, p, |a|);
      }
    } else {
      var p :| 0 <= p <= |a| - |b| && OccursAt(a, b, p);
      assert b[0..|b|] == b;
      if |b| > 0 {
        BlockBoundsMatched(a, b, p, 0, |b|);
      }
    }
  }

  /** Every character of a string matches itself. */
  lemma MatchedSelf(a: string)
    ensures Matched(a, a) == |a|
  {
    ContainsSelf(a);
    ContainedFullyMatched(a, a);
  }

  /** is_similar(a, a) always holds. */
  lemma SimilarReflexive(a: string)
    ensures IsSimilar(a, a)
  {
    MatchedSelf(a);
  }

  /**
   * Similar strings have close lengths: the shorter is at least two thirds
   * of the longer.
   */
  lemma SimilarLengths(a: string, b: string)
    requires IsSimilar(a, b)
    ensures 3 * |a| >= 2 * |b| && 3 * |b| >= 2 * |a|
  {
  }

  /** When one string occurs in the other, similarity depends on lengths alone. */
  lemma SimilarWhenContained(a: string, b: string)
    requires Contains(b, a) || Contains(a, b)
    ensures IsSimilar(a, b) <==> (3 * |a| >= 2 * |b| && 3 * |b| >= 2 * |a|)
  {
    ContainedFullyMatched(a, b);
  }

  /** "ser" is never mistaken for "ser biały": the lengths are too far apart. */
  lemma CheeseIsNotWhiteCheese()
    ensures !IsSimilar("ser", "ser biały")
  {
    if IsSimilar("ser", "ser biały") {
      SimilarLengths("ser", "ser biały");
    }
  }

  /**
   * The threshold is inclusive: "olejem" against "olej" has ratio exactly
   * 2*4/10 = 0.8 and is accepted; "ryżem" against "ryż" has ratio
   * 2*3/8 = 0.75 and is rejected.
   */
  lemma ThresholdInclusive()
    ensures IsSimilar("olejem", "olej")
    ensures !IsSimilar("ryżem", "ryż")
  {
    assert OccursAt("olejem", "olej", 0);
    SimilarWhenContained("olejem", "olej");
    assert OccursAt("ryżem", "ryż", 0);
    SimilarWhenContained("ryżem", "ryż");
  }
}
