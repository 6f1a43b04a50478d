/** Choosing a group from the moduli file in two passes over its lines. */
module Dh {

  /** A prime's size as parsed: the listed size plus one. */
  type Size = n: int | 2 <= n <= 0x10001 witness 2

  /** A line that does not parse, or a group of some size. */
  datatype Line = Skipped | Group(size: Size)

  predicate Admissible(l: Line, min: int, max: int) { l.Group? && min <= l.size <= max }

  /** The first pass, after each line: the best size so far and how many lines had it. */
  datatype Scan = Scan(best: int, count: nat)

  function Look(s: Scan, l: Line, min: int, want: int, max: int): Scan {
    if !Admissible(l, min, max) then s
    else
      var t := if (l.size > want && l.size < s.best) || (l.size > s.best && s.best < want) then Scan(l.size, 0) else s;
      if l.size == t.best then t.(count := t.count + 1) else t
  }

  function FirstPass(ls: seq<Line>, min: int, want: int, max: int): Scan {
    if ls == [] then Scan(0, 0) else Look(FirstPass(ls[..|ls| - 1], min, want, max), ls[|ls| - 1], min, want, max)
  }

  function Count(ls: seq<Line>, min: int, max: int, size: int): nat {
    if ls == [] then 0
    else Count(ls[..|ls| - 1], min, max, size)
         + (if Admissible(ls[|ls| - 1], min, max) && ls[|ls| - 1].size == size then 1 else 0)
  }

  // ---------- what the first pass finds ----------

  /** Every admissible size in the file. */
  function Sizes(ls: seq<Line>, min: int, max: int): set<int> {
    set l | l in ls && Admissible(l, min, max) :: l.size
  }

  ghost predicate NoneReach(ls: seq<Line>, min: int, want: int, max: int) {
    forall n | n in Sizes(ls, min, max) :: n < want
  }

  /** The first admissible line that is large enough has exactly the wanted size. */
  ghost predicate ExactFirst(ls: seq<Line>, min: int, want: int, max: int) {
    exists k | 0 <= k < |ls| :: Admissible(ls[k], min, max) && ls[k].size == want && NoneReach(ls[..k], min, want, max)
  }

  /** The size the first pass settles on, without running it. */
  ghost predicate Settles(ls: seq<Line>, min: int, want: int, max: int, best: int) {
    var all := Sizes(ls, min, max);
    if want <= 0 || all == {} then best == 0
    else if NoneReach(ls, min, want, max) then best in all && forall n | n in all :: n <= best
    else if ExactFirst(ls, min, want, max) then best == want
    else best in all && best > want && forall n | n in all && n > want :: best <= n
  }

  lemma {:induction false} FirstPassSettles(ls: seq<Line>, min: int, want: int, max: int)
    ensures var s := FirstPass(ls, min, want, max);
            Settles(ls, min, want, max, s.best) && s.count == Count(ls, min, max, s.best)
  {
    hide Settles, Look;
    if ls == [] {
      EmptySettles(min, want, max);
    } else {
      var n := |ls| - 1;
      FirstPassSettles(ls[..n], min, want, max);
      LookSettles(ls[..n], ls[n], FirstPass(ls[..n], min, want, max), min, want, max);
      assert ls == ls[..n] + [ls[n]];
    }
  }

  lemma EmptySettles(min: int, want: int, max: int)
    ensures Settles([], min, want, max, 0)
  {
  }

  lemma LookSettles(ls: seq<Line>, l: Line, s: Scan, min: int, want: int, max: int)
    requires Settles(ls, min, want, max, s.best) && s.count == Count(ls, min, max, s.best)
    ensures var t := Look(s, l, min, want, max);
            Settles(ls + [l], min, want, max, t.best) && t.count == Count(ls + [l], min, max, t.best)
  {
    hide Sizes, ExactFirst, Count;
    SizesSnoc(ls, l, min, max);
    Snoc(ls, l, min, want, max);
    NotSeen(ls, min, max, l);
    ExactReaches(ls, min, want, max);
    CountSnoc(ls, l, min, max, s.best);
    CountSnoc(ls, l, min, max, Look(s, l, min, want, max).best);
    assert Admissible(l, min, max) ==> l.size in Sizes(ls + [l], min, max);
  }

  lemma ExactReaches(ls: seq<Line>, min: int, want: int, max: int)
    ensures ExactFirst(ls, min, want, max) ==> want in Sizes(ls, min, max)
  {
  }

  lemma CountSnoc(ls: seq<Line>, l: Line, min: int, max: int, size: int)
    ensures Count(ls + [l], min, max, size)
         == Count(ls, min, max, size) + (if Admissible(l, min, max) && l.size == size then 1 else 0)
  {
    assert (ls + [l])[..|ls|] == ls;
  }

  lemma SizesSnoc(ls: seq<Line>, l: Line, min: int, max: int)
    ensures Sizes(ls + [l], min, max) == Sizes(ls, min, max) + (if Admissible(l, min, max) then {l.size} else {})
  {
    var all := ls + [l];
    assert forall x :: x in all <==> x in ls || x == l;
    if Admissible(l, min, max) { assert l in all; }
  }

  lemma Snoc(ls: seq<Line>, l: Line, min: int, want: int, max: int)
    ensures ExactFirst(ls + [l], min, want, max) <==>
            ExactFirst(ls, min, want, max) || (NoneReach(ls, min, want, max) && Admissible(l, min, max) && l.size == want)
  {
    var all := ls + [l];
    assert forall k | 0 <= k < |ls| :: all[..k] == ls[..k] && all[k] == ls[k];
    assert all[..|ls|] == ls && all[|ls|] == l;
  }

  /** A size that never occurred was never counted. */
  lemma {:induction false} NotSeen(ls: seq<Line>, min: int, max: int, l: Line)
    ensures l.Group? && l.size !in Sizes(ls, min, max) ==> Count(ls, min, max, l.size) == 0
    ensures Count(ls, min, max, 0) == 0
  {
    if ls != [] {
      var front := ls[..|ls| - 1];
      SizesSnoc(front, ls[|ls| - 1], min, max);
      assert ls == front + [ls[|ls| - 1]];
      NotSeen(front, min, max, l);
    }
  }

  // ---------- is that the smallest sufficient size? ----------

  ghost predicate Smallest(ls: seq<Line>, min: int, want: int, max: int, best: int) {
    best in Sizes(ls, min, max) && best >= want && forall n | n in Sizes(ls, min, max) && n >= want :: best <= n
  }

  /** An exact match listed after a larger group is passed over. */
  lemma ExactMatchPassedOver()
    ensures var ls := [Group(4096), Group(2048)];
            FirstPass(ls, 2048, 2048, 8192).best == 4096 && !Smallest(ls, 2048, 2048, 8192, 4096)
  {
    var ls := [Group(4096), Group(2048)];
    assert ls[..1] == [Group(4096)] && ls[..1][..0] == [];
    assert FirstPass(ls[..1], 2048, 2048, 8192) == Scan(4096, 1);
    assert ls[1] in ls && Admissible(ls[1], 2048, 8192);
    assert 2048 in Sizes(ls, 2048, 8192);
  }

  /** When some group is large enough, the smallest such size is found exactly under this condition on the file. */
  lemma SmallestExactly(ls: seq<Line>, min: int, want: int, max: int)
    requires want > 0 && !NoneReach(ls, min, want, max)
    ensures Smallest(ls, min, want, max, FirstPass(ls, min, want, max).best)
       <==> (want !in Sizes(ls, min, max) || ExactFirst(ls, min, want, max))
  {
    hide FirstPass, Sizes, ExactFirst;
    FirstPassSettles(ls, min, want, max);
    ExactReaches(ls, min, want, max);
  }

  // ---------- the second pass ----------

  predicate Match(l: Line, min: int, max: int, best: int) { Admissible(l, min, max) && l.size == best }

  /** Different matching lines have different ranks, so a draw names one line at most. */
  lemma {:induction false} RanksDiffer(ls: seq<Line>, min: int, max: int, best: int, i: nat, j: nat)
    requires i < j <= |ls| && Match(ls[i], min, max, best)
    ensures Count(ls[..i], min, max, best) < Count(ls[..j], min, max, best)
    decreases j
  {
    assert ls[..j][..j - 1] == ls[..j - 1];
    if i < j - 1 { RanksDiffer(ls, min, max, best, i, j - 1); }
  }

  datatype Choice = NoPrime | Fallback | Chosen(line: nat)

  /**
   * choose_dh: `first` and `second` are the file's lines at each reading, and
   * `draw` the uniform random choice below a positive bound.
   */
  method ChooseDh(readable: bool, first: seq<Line>, second: seq<Line>, draw: nat -> nat, min: int, want: int, max: int)
    returns (r: Choice)
    requires forall n | n > 0 :: draw(n) < n
    ensures !readable ==> r == Fallback
    ensures readable ==> (r == NoPrime <==> want <= 0 || Sizes(first, min, max) == {})
    ensures r.Chosen? ==>
              var best := FirstPass(first, min, want, max).best;
              r.line < |second| && Match(second[r.line], min, max, best)
              && Count(second[..r.line], min, max, best) == draw(Count(first, min, max, best))
    ensures readable && !r.NoPrime? ==>
              var best := FirstPass(first, min, want, max).best;
              (r.Fallback? <==> Count(second, min, max, best) <= draw(Count(first, min, max, best)))
    ensures readable && first == second ==> !r.Fallback?
  {
    hide Count, Settles, Sizes, Look, FirstPass;
    if !readable {
      return Fallback;
    }
    var s := Scan(0, 0);
    assert FirstPass([], min, want, max) == s by { NoLines(min, want, max); }
    for i := 0 to |first|
      invariant s == FirstPass(first[..i], min, want, max)
    {
      FirstPassSnoc(first, i, min, want, max);
      s := Look(s, first[i], min, want, max);
    }
    assert first[..|first|] == first;
    var best := s.best;
    FirstPassSettles(first, min, want, max);
    NoneCounted(first, min, want, max, best);
    if s.count == 0 {
      return NoPrime;
    }
    var which := draw(s.count);
    var count := 0;
    NoLinesCount(min, max, best);
    for k := 0 to |second|
      invariant count == Count(second[..k], min, max, best) <= which
    {
      assert second[..k + 1] == second[..k] + [second[k]];
      CountSnoc(second[..k], second[k], min, max, best);
      if Match(second[k], min, max, best) {
        count := count + 1;
        if count == which + 1 {
          CountGrows(second, k + 1, min, max, best);
          return Chosen(k);
        }
      }
    }
    assert second[..|second|] == second;
    r := Fallback;
  }

  lemma {:induction false} CountGrows(ls: seq<Line>, k: nat, min: int, max: int, size: int)
    requires k <= |ls|
    ensures Count(ls[..k], min, max, size) <= Count(ls, min, max, size)
    decreases |ls|
  {
    if k < |ls| {
      assert ls[..|ls| - 1][..k] == ls[..k];
      CountGrows(ls[..|ls| - 1], k, min, max, size);
    } else {
      assert ls[..k] == ls;
    }
  }

  lemma NoLines(min: int, want: int, max: int)
    ensures FirstPass([], min, want, max) == Scan(0, 0)
  {
  }

  lemma NoLinesCount(min: int, max: int, size: int)
    ensures Count([], min, max, size) == 0
  {
  }

  lemma FirstPassSnoc(ls: seq<Line>, i: nat, min: int, want: int, max: int)
    requires i < |ls|
    ensures FirstPass(ls[..i + 1], min, want, max) == Look(FirstPass(ls[..i], min, want, max), ls[i], min, want, max)
  {
    assert ls[..i + 1][..i] == ls[..i];
  }

  /** Nothing is counted exactly when there is nothing to choose from. */
  lemma NoneCounted(ls: seq<Line>, min: int, want: int, max: int, best: int)
    requires Settles(ls, min, want, max, best)
    ensures Count(ls, min, max, best) == 0 <==> want <= 0 || Sizes(ls, min, max) == {}
  {
    hide Count, Sizes, ExactFirst;
    NotSeen(ls, min, max, Skipped);
    ExactReaches(ls, min, want, max);
    Seen(ls, min, max, best);
  }

  lemma {:induction false} Seen(ls: seq<Line>, min: int, max: int, size: int)
    ensures size in Sizes(ls, min, max) ==> Count(ls, min, max, size) > 0
  {
    if ls != [] {
      var front := ls[..|ls| - 1];
      SizesSnoc(front, ls[|ls| - 1], min, max);
      assert ls == front + [ls[|ls| - 1]];
      Seen(front, min, max, size);
    }
  }
}
