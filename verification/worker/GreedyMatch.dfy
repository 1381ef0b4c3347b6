/**
 One-to-one hold matching (worker/detection/match.py). Overlap and distance are
 given scores; the geometry that produces them is not part of this model.
 */
module GreedyMatch {
  import opened Sorting

  /** A scored pair: overlap, centre distance, index of the new hold, index of the old hold. */
  datatype Candidate = Candidate(iou: real, distance: real, newIndex: nat, oldIndex: nat)

  datatype Match = Match(newIndex: nat, oldIndex: nat, iou: real)

  const CORRECTION_ROUNDS := 5
  const MIN_MATCHES_TO_CORRECT := 3
  const MIN_DETERMINANT := 0.0000000001

  /** The sort key: larger overlap first, then smaller distance, then the indices. */
  predicate Before(a: Candidate, b: Candidate) {
    if a.iou != b.iou then a.iou > b.iou
    else if a.distance != b.distance then a.distance < b.distance
    else if a.newIndex != b.newIndex then a.newIndex < b.newIndex
    else a.oldIndex <= b.oldIndex
  }

  predicate Shares(a: Candidate, b: Candidate) {
    a.newIndex == b.newIndex || a.oldIndex == b.oldIndex
  }

  ghost predicate OneToOne(picks: seq<Candidate>) {
    forall i, j :: 0 <= i < j < |picks| ==> !Shares(picks[i], picks[j])
  }

  ghost predicate Avoids(picks: seq<Candidate>, news: set<nat>, olds: set<nat>) {
    forall c :: c in picks ==> c.newIndex !in news && c.oldIndex !in olds
  }

  function Total(picks: seq<Candidate>): real {
    if picks == [] then 0.0 else picks[0].iou + Total(picks[1..])
  }

  /** The candidates kept by one scan of an ordered list. */
  function Scan(list: seq<Candidate>, news: set<nat>, olds: set<nat>): seq<Candidate> {
    if list == [] then []
    else if list[0].newIndex in news || list[0].oldIndex in olds then Scan(list[1..], news, olds)
    else [list[0]] + Scan(list[1..], news + {list[0].newIndex}, olds + {list[0].oldIndex})
  }

  function Chosen(candidates: seq<Candidate>, news: set<nat>, olds: set<nat>): seq<Candidate> {
    Scan(Sort(Before, candidates), news, olds)
  }

  function MatchOf(c: Candidate): Match {
    Match(c.newIndex, c.oldIndex, c.iou)
  }

  function MatchesOf(picks: seq<Candidate>): seq<Match> {
    seq(|picks|, i requires 0 <= i < |picks| => MatchOf(picks[i]))
  }

  function NewIndices(ms: seq<Match>): set<nat> {
    set m | m in ms :: m.newIndex
  }

  function OldIndices(ms: seq<Match>): set<nat> {
    set m | m in ms :: m.oldIndex
  }

  // ---------------------------------------------------------------- quality of one scan

  lemma BeforeIsTotalOrder()
    ensures TotalOrder(Before)
  {
  }

  /** The scan keeps candidates only, one to one, and never reuses a used index. */
  lemma {:induction false} ScanIsOneToOne(list: seq<Candidate>, news: set<nat>, olds: set<nat>)
    ensures OneToOne(Scan(list, news, olds))
    ensures Avoids(Scan(list, news, olds), news, olds)
    ensures forall c :: c in Scan(list, news, olds) ==> c in list
  {
    if list != [] {
      var c := list[0];
      if c.newIndex in news || c.oldIndex in olds {
        ScanIsOneToOne(list[1..], news, olds);
      } else {
        var rest := Scan(list[1..], news + {c.newIndex}, olds + {c.oldIndex});
        ScanIsOneToOne(list[1..], news + {c.newIndex}, olds + {c.oldIndex});
        forall j | 0 <= j < |rest| ensures !Shares(c, rest[j]) { assert rest[j] in rest; }
      }
    }
  }

  /** A rejected candidate lost an index to a used one or to a kept candidate sorting no later. */
  ghost predicate Blocked(x: Candidate, kept: seq<Candidate>, news: set<nat>, olds: set<nat>) {
    || x.newIndex in news
    || x.oldIndex in olds
    || exists d :: d in kept && Shares(d, x) && Before(d, x)
  }

  lemma {:induction false} ScanIsStable(list: seq<Candidate>, news: set<nat>, olds: set<nat>)
    requires Sorted(Before, list)
    ensures forall x :: x in list && x !in Scan(list, news, olds) ==> Blocked(x, Scan(list, news, olds), news, olds)
  {
    if list != [] {
      var c := list[0];
      var kept := Scan(list, news, olds);
      if c.newIndex in news || c.oldIndex in olds {
        ScanIsStable(list[1..], news, olds);
      } else {
        ScanIsStable(list[1..], news + {c.newIndex}, olds + {c.oldIndex});
        var rest := Scan(list[1..], news + {c.newIndex}, olds + {c.oldIndex});
        forall x | x in list && x !in kept ensures Blocked(x, kept, news, olds) {
          assert x in list[1..];
          assert c in kept && Before(c, x);
          assert Blocked(x, rest, news + {c.newIndex}, olds + {c.oldIndex});
        }
      }
    }
  }

  lemma {:induction false} TotalAfterRemoval(picks: seq<Candidate>, i: nat)
    requires i < |picks|
    ensures Total(picks) == picks[i].iou + Total(picks[..i] + picks[i + 1..])
  {
    if i > 0 {
      TotalAfterRemoval(picks[1..], i - 1);
      assert picks[..i] + picks[i + 1..] == [picks[0]] + (picks[1..][..i - 1] + picks[1..][i..]);
    } else {
      assert picks[..0] + picks[1..] == picks[1..];
    }
  }

  /** Removes the pick, if any, that shares the given index with `c`; at most `c.iou` is lost. */
  lemma DropSharing(picks: seq<Candidate>, c: Candidate, byNew: bool) returns (rest: seq<Candidate>)
    requires OneToOne(picks) && c.iou >= 0.0
    requires forall x :: x in picks ==> x.iou <= c.iou
    ensures OneToOne(rest) && Total(picks) <= Total(rest) + c.iou
    ensures forall x :: x in rest ==> x in picks
    ensures forall x :: x in rest ==> if byNew then x.newIndex != c.newIndex else x.oldIndex != c.oldIndex
  {
    if i :| 0 <= i < |picks| && if byNew then picks[i].newIndex == c.newIndex else picks[i].oldIndex == c.oldIndex {
      rest := picks[..i] + picks[i + 1..];
      TotalAfterRemoval(picks, i);
      assert picks[i] in picks;
      forall x | x in rest ensures if byNew then x.newIndex != c.newIndex else x.oldIndex != c.oldIndex {
        var j :| 0 <= j < |picks| && j != i && picks[j] == x;
      }
    } else {
      rest := picks;
    }
  }

  lemma {:induction false} ScanTotalIsNonNegative(list: seq<Candidate>, news: set<nat>, olds: set<nat>)
    requires forall c :: c in list ==> c.iou >= 0.0
    ensures Total(Scan(list, news, olds)) >= 0.0
  {
    if list != [] {
      var c := list[0];
      ScanTotalIsNonNegative(list[1..], news, olds);
      ScanTotalIsNonNegative(list[1..], news + {c.newIndex}, olds + {c.oldIndex});
    }
  }

  lemma {:induction false} ScanIsHalfOptimal(list: seq<Candidate>, news: set<nat>, olds: set<nat>, picks: seq<Candidate>)
    requires Sorted(Before, list)
    requires forall c :: c in list ==> c.iou >= 0.0
    requires OneToOne(picks) && Avoids(picks, news, olds)
    requires forall x :: x in picks ==> x in list
    ensures Total(picks) <= 2.0 * Total(Scan(list, news, olds))
  {
    if picks == [] {
      ScanTotalIsNonNegative(list, news, olds);
    } else {
      assert picks[0] in list;
      var c := list[0];
      if c.newIndex in news || c.oldIndex in olds {
        ScanIsHalfOptimal(list[1..], news, olds, picks);
      } else {
        forall x | x in picks ensures x.iou <= c.iou {
          var i :| 0 <= i < |list| && list[i] == x;
          if i > 0 { assert Before(list[0], list[i]); }
        }
        var some := DropSharing(picks, c, true);
        var rest := DropSharing(some, c, false);
        ScanIsHalfOptimal(list[1..], news + {c.newIndex}, olds + {c.oldIndex}, rest);
      }
    }
  }

  /** The scan result is the only one-to-one set of candidates in which every omission is blocked. */
  lemma {:induction false} ScanIsTheStableSet(list: seq<Candidate>, news: set<nat>, olds: set<nat>, picks: set<Candidate>)
    requires Sorted(Before, list)
    requires forall x :: x in picks ==> x in list && x.newIndex !in news && x.oldIndex !in olds
    requires forall x, y :: x in picks && y in picks && x != y ==> !Shares(x, y)
    requires forall x :: x in list && x !in picks ==>
      x.newIndex in news || x.oldIndex in olds || exists d :: d in picks && Shares(d, x) && Before(d, x)
    ensures picks == set c | c in Scan(list, news, olds)
  {
    if list != [] {
      var c := list[0];
      if c.newIndex in news || c.oldIndex in olds {
        ScanIsTheStableSet(list[1..], news, olds, picks);
      } else {
        forall d | d in picks && Before(d, c) ensures d == c {
          var i :| 0 <= i < |list| && list[i] == d;
          assert Before(c, d);
        }
        var rest := picks - {c};
        forall x | x in list[1..] && x !in rest
          ensures x.newIndex in news + {c.newIndex} || x.oldIndex in olds + {c.oldIndex}
               || exists d :: d in rest && Shares(d, x) && Before(d, x)
        {
          if x !in picks && x.newIndex !in news && x.oldIndex !in olds && !Shares(c, x) {
            var d :| d in picks && Shares(d, x) && Before(d, x);
            assert d in rest;
          }
        }
        ScanIsTheStableSet(list[1..], news + {c.newIndex}, olds + {c.oldIndex}, rest);
        var kept := Scan(list[1..], news + {c.newIndex}, olds + {c.oldIndex});
        assert Scan(list, news, olds) == [c] + kept;
        assert forall x :: x in [c] + kept <==> x == c || x in kept;
      }
    }
  }

  // ---------------------------------------------------------------- the whole assignment

  /** One to one, clear of the used indices, and every candidate left out is blocked by a better one. */
  lemma AssignmentIsStable(candidates: seq<Candidate>, news: set<nat>, olds: set<nat>)
    ensures var kept := Chosen(candidates, news, olds);
      && OneToOne(kept) && Avoids(kept, news, olds)
      && (forall c :: c in kept ==> c in candidates)
      && (forall x :: x in candidates && x !in kept ==> Blocked(x, kept, news, olds))
  {
    BeforeIsTotalOrder();
    var list := Sort(Before, candidates);
    SortIsSortedPermutation(Before, candidates);
    ScanIsOneToOne(list, news, olds);
    ScanIsStable(list, news, olds);
    forall c ensures c in list <==> c in candidates { assert c in multiset(list) <==> c in multiset(candidates); }
  }

  /** Listing the same candidates in another order changes nothing. */
  lemma AssignmentIgnoresOrder(first: seq<Candidate>, second: seq<Candidate>, news: set<nat>, olds: set<nat>)
    requires multiset(first) == multiset(second)
    ensures Chosen(first, news, olds) == Chosen(second, news, olds)
  {
    BeforeIsTotalOrder();
    SortIsSortedPermutation(Before, first);
    SortIsSortedPermutation(Before, second);
    SortedListIsUnique(Before, Sort(Before, first), Sort(Before, second));
  }

  /** The greedy total is at least half that of any one-to-one choice among the same candidates. */
  lemma AssignmentIsHalfOptimal(candidates: seq<Candidate>, news: set<nat>, olds: set<nat>, picks: seq<Candidate>)
    requires forall c :: c in candidates ==> c.iou >= 0.0
    requires OneToOne(picks) && Avoids(picks, news, olds)
    requires forall x :: x in picks ==> x in candidates
    ensures Total(picks) <= 2.0 * Total(Chosen(candidates, news, olds))
  {
    BeforeIsTotalOrder();
    var list := Sort(Before, candidates);
    SortIsSortedPermutation(Before, candidates);
    forall c ensures c in list <==> c in candidates { assert c in multiset(list) <==> c in multiset(candidates); }
    ScanIsHalfOptimal(list, news, olds, picks);
  }

  /** The factor two is attained in the limit: two pairs of overlap 1 lose to one of overlap 1 + e. */
  lemma HalfIsTight(e: real)
    requires e > 0.0
    ensures
      var best := [Candidate(1.0, 0.0, 0, 1), Candidate(1.0, 0.0, 1, 0)];
      var candidates := best + [Candidate(1.0 + e, 0.0, 0, 0)];
      OneToOne(best) && Total(best) == 2.0 && Total(Chosen(candidates, {}, {})) == 1.0 + e
  {
    var a, b, c := Candidate(1.0, 0.0, 0, 1), Candidate(1.0, 0.0, 1, 0), Candidate(1.0 + e, 0.0, 0, 0);
    assert Sort(Before, [c]) == [c];
    assert [b, c][1..] == [c] && [a, b, c][1..] == [b, c];
    assert Sort(Before, [b, c]) == Insert(Before, b, [c]) == [c, b];
    assert Sort(Before, [a, b, c]) == Insert(Before, a, [c, b]) == [c, a, b];
    assert [c, a, b][1..] == [a, b] && [a, b][1..] == [b];
    var zero: set<nat> := {0};
    assert {} + {c.newIndex} == zero && {} + {c.oldIndex} == zero;
    assert [b][1..] == [];
    assert Scan([b], zero, zero) == Scan([], zero, zero);
    assert Scan([a, b], zero, zero) == Scan([b], zero, zero) == [];
    assert Scan([c, a, b], {}, {}) == [c] + Scan([a, b], zero, zero);
    assert [a, b] + [c] == [a, b, c];
    assert Total([a, b]) == a.iou + Total([b]) == 2.0;
  }

  // ---------------------------------------------------------------- the imperative form

  /** The two index sets that the rounds share and every assignment extends in place. */
  class UsedIndices {
    var news: set<nat>
    var olds: set<nat>

    constructor (news: set<nat>, olds: set<nat>)
      ensures this.news == news && this.olds == olds
    {
      this.news, this.olds := news, olds;
    }
  }

  lemma MatchesOfAppend(picks: seq<Candidate>, c: Candidate)
    ensures MatchesOf(picks + [c]) == MatchesOf(picks) + [MatchOf(c)]
  {
  }

  lemma IndicesOfAppend(ms: seq<Match>, m: Match)
    ensures NewIndices(ms + [m]) == NewIndices(ms) + {m.newIndex}
    ensures OldIndices(ms + [m]) == OldIndices(ms) + {m.oldIndex}
  {
    assert forall x :: x in ms + [m] <==> x in ms || x == m;
    assert m in ms + [m];
  }

  method GreedyAssign(candidates: seq<Candidate>, used: UsedIndices) returns (matches: seq<Match>)
    modifies used
    ensures matches == MatchesOf(Chosen(candidates, old(used.news), old(used.olds)))
    ensures used.news == old(used.news) + NewIndices(matches)
    ensures used.olds == old(used.olds) + OldIndices(matches)
  {
    matches := [];
    var list := Sort(Before, candidates);
    ghost var picks: seq<Candidate> := [];
    for i := 0 to |list|
      invariant matches == MatchesOf(picks)
      invariant used.news == old(used.news) + NewIndices(matches)
      invariant used.olds == old(used.olds) + OldIndices(matches)
      invariant Chosen(candidates, old(used.news), old(used.olds)) == picks + Scan(list[i..], used.news, used.olds)
    {
      var c := list[i];
      assert list[i..][1..] == list[i + 1..];
      if c.newIndex in used.news || c.oldIndex in used.olds {
        continue;
      }
      used.news := used.news + {c.newIndex};
      used.olds := used.olds + {c.oldIndex};
      MatchesOfAppend(picks, c);
      IndicesOfAppend(matches, MatchOf(c));
      matches := matches + [MatchOf(c)];
      picks := picks + [c];
    }
    assert list[|list|..] == [];
  }

  // ---------------------------------------------------------------- correction rounds

  /** Proposes further pairs from the matches found so far and the indices already used. */
  type Corrector = (seq<Match>, set<nat>, set<nat>) -> seq<Candidate>

  function Added(corrected: Corrector, matches: seq<Match>): seq<Match> {
    var news, olds := NewIndices(matches), OldIndices(matches);
    MatchesOf(Chosen(corrected(matches, news, olds), news, olds))
  }

  function Rounds(corrected: Corrector, matches: seq<Match>, rounds: nat): seq<Match>
    decreases rounds
  {
    if rounds == 0 then matches
    else
      var added := Added(corrected, matches);
      if added == [] then matches else Rounds(corrected, matches + added, rounds - 1)
  }

  function FirstMatches(determinant: real, candidates: seq<Candidate>): seq<Match> {
    if -MIN_DETERMINANT < determinant < MIN_DETERMINANT then [] else MatchesOf(Chosen(candidates, {}, {}))
  }

  function AllMatches(determinant: real, candidates: seq<Candidate>, corrected: Corrector): seq<Match> {
    var first := FirstMatches(determinant, candidates);
    if |first| < MIN_MATCHES_TO_CORRECT then first else Rounds(corrected, first, CORRECTION_ROUNDS)
  }

  ghost predicate InjectiveMatches(ms: seq<Match>) {
    forall i, j :: 0 <= i < j < |ms| ==> ms[i].newIndex != ms[j].newIndex && ms[i].oldIndex != ms[j].oldIndex
  }

  lemma AddedIsOneToOne(corrected: Corrector, matches: seq<Match>)
    requires InjectiveMatches(matches)
    ensures InjectiveMatches(matches + Added(corrected, matches))
  {
    var news, olds := NewIndices(matches), OldIndices(matches);
    var kept := Chosen(corrected(matches, news, olds), news, olds);
    AssignmentIsStable(corrected(matches, news, olds), news, olds);
    var all := matches + MatchesOf(kept);
    forall i, j | 0 <= i < j < |all| ensures all[i].newIndex != all[j].newIndex && all[i].oldIndex != all[j].oldIndex {
      if j >= |matches| {
        assert kept[j - |matches|] in kept;
        if i < |matches| {
          assert matches[i] in matches;
        } else {
          assert !Shares(kept[i - |matches|], kept[j - |matches|]);
        }
      }
    }
  }

  /** Rounds only append, stay one to one, and stop early only when a round proposes nothing. */
  lemma {:induction false} RoundsGrowAndSettle(corrected: Corrector, matches: seq<Match>, rounds: nat)
    requires InjectiveMatches(matches)
    ensures var result := Rounds(corrected, matches, rounds);
      && InjectiveMatches(result) && matches <= result
      && (Added(corrected, result) == [] || |result| >= |matches| + rounds)
    decreases rounds
  {
    if rounds > 0 && Added(corrected, matches) != [] {
      AddedIsOneToOne(corrected, matches);
      RoundsGrowAndSettle(corrected, matches + Added(corrected, matches), rounds - 1);
    }
  }

  /**
   Whatever the corrections propose, no new hold and no old hold is matched twice,
   and the matches of the first pass are never revised.
   */
  lemma AllMatchesAreOneToOne(determinant: real, candidates: seq<Candidate>, corrected: Corrector)
    ensures InjectiveMatches(AllMatches(determinant, candidates, corrected))
    ensures FirstMatches(determinant, candidates) <= AllMatches(determinant, candidates, corrected)
  {
    var kept := Chosen(candidates, {}, {});
    AssignmentIsStable(candidates, {}, {});
    var first := FirstMatches(determinant, candidates);
    forall i, j | 0 <= i < j < |first|
      ensures first[i].newIndex != first[j].newIndex && first[i].oldIndex != first[j].oldIndex
    {
      assert !Shares(kept[i], kept[j]);
    }
    RoundsGrowAndSettle(corrected, first, CORRECTION_ROUNDS);
  }

  // ---------------------------------------------------------------- what the whole matching returns

  predicate Singular(determinant: real) {
    (if determinant < 0.0 then -determinant else determinant) < MIN_DETERMINANT
  }

  function MatchTotal(ms: seq<Match>): real {
    if ms == [] then 0.0 else ms[0].iou + MatchTotal(ms[1..])
  }

  ghost predicate FromSome(m: Match, candidates: seq<Candidate>) {
    exists c :: c in candidates && MatchOf(c) == m
  }

  /** Some match has the candidate's new or old hold, and overlaps no less. */
  ghost predicate Overtaken(x: Candidate, ms: seq<Match>) {
    exists m :: m in ms && (m.newIndex == x.newIndex || m.oldIndex == x.oldIndex) && m.iou >= x.iou
  }

  /** Matches of candidates only, and no candidate left that could be added or does better than its rivals. */
  ghost predicate FullPass(ms: seq<Match>, candidates: seq<Candidate>) {
    && (forall m :: m in ms ==> FromSome(m, candidates))
    && (forall x :: x in candidates ==> Overtaken(x, ms))
  }

  lemma ChosenIsAFullPass(candidates: seq<Candidate>)
    ensures FullPass(MatchesOf(Chosen(candidates, {}, {})), candidates)
  {
    var kept := Chosen(candidates, {}, {});
    var ms := MatchesOf(kept);
    AssignmentIsStable(candidates, {}, {});
    forall m | m in ms ensures FromSome(m, candidates) {
      var i :| 0 <= i < |ms| && ms[i] == m;
      assert kept[i] in kept;
    }
    forall x | x in candidates ensures Overtaken(x, ms) {
      BlockersOvertake(kept, x);
      var i :| 0 <= i < |kept| && (kept[i].newIndex == x.newIndex || kept[i].oldIndex == x.oldIndex) && kept[i].iou >= x.iou;
      assert ms[i] in ms;
    }
  }

  lemma BlockersOvertake(kept: seq<Candidate>, x: Candidate)
    requires x in kept || Blocked(x, kept, {}, {})
    ensures exists i :: 0 <= i < |kept| && (kept[i].newIndex == x.newIndex || kept[i].oldIndex == x.oldIndex) && kept[i].iou >= x.iou
  {
    if x !in kept {
      var d :| d in kept && Shares(d, x) && Before(d, x);
      SharedIndex(d, x);
    }
  }

  lemma SharedIndex(a: Candidate, b: Candidate)
    requires Shares(a, b)
    ensures a.newIndex == b.newIndex || a.oldIndex == b.oldIndex
  {
  }

  lemma {:induction false} MatchTotalOf(picks: seq<Candidate>)
    ensures MatchTotal(MatchesOf(picks)) == Total(picks)
  {
    if picks != [] {
      assert MatchesOf(picks)[1..] == MatchesOf(picks[1..]);
      MatchTotalOf(picks[1..]);
    }
  }

  lemma {:induction false} MatchTotalAppend(a: seq<Match>, b: seq<Match>)
    ensures MatchTotal(a + b) == MatchTotal(a) + MatchTotal(b)
  {
    if a == [] {
      assert a + b == b;
    } else {
      assert (a + b)[1..] == a[1..] + b;
      MatchTotalAppend(a[1..], b);
    }
  }

  ghost predicate NonNegative(corrected: Corrector) {
    forall ms, news, olds, c :: c in corrected(ms, news, olds) ==> c.iou >= 0.0
  }

  lemma AddedIsNonNegative(corrected: Corrector, matches: seq<Match>)
    requires NonNegative(corrected)
    ensures MatchTotal(Added(corrected, matches)) >= 0.0
  {
    var (news, olds) := (NewIndices(matches), OldIndices(matches));
    var proposed := corrected(matches, news, olds);
    var list := Sort(Before, proposed);
    BeforeIsTotalOrder();
    SortIsSortedPermutation(Before, proposed);
    forall c | c in list ensures c.iou >= 0.0 { assert c in multiset(list) && c in multiset(proposed); }
    ScanTotalIsNonNegative(list, news, olds);
    MatchTotalOf(Scan(list, news, olds));
  }

  lemma {:induction false} RoundsOnlyAdd(corrected: Corrector, matches: seq<Match>, rounds: nat)
    requires NonNegative(corrected)
    ensures MatchTotal(Rounds(corrected, matches, rounds)) >= MatchTotal(matches)
    decreases rounds
  {
    if rounds > 0 && Added(corrected, matches) != [] {
      hide NonNegative, Added;
      AddedIsNonNegative(corrected, matches);
      MatchTotalAppend(matches, Added(corrected, matches));
      RoundsOnlyAdd(corrected, matches + Added(corrected, matches), rounds - 1);
    }
  }

  /**
   A singular alignment matches nothing. Otherwise the first pass matches candidates only, and each
   candidate shares a hold with a match that overlaps no less; with fewer than three matches that is
   all, and with more the corrections either have no more to add or have added in every round.
   */
  lemma MatchingIsComplete(determinant: real, candidates: seq<Candidate>, corrected: Corrector)
    ensures
      var result := AllMatches(determinant, candidates, corrected);
      && (Singular(determinant) ==> result == [])
      && (!Singular(determinant) ==> (forall x :: x in candidates ==> Overtaken(x, result)))
      && (!Singular(determinant) ==> exists first ::
           && first <= result && FullPass(first, candidates)
           && (|first| < MIN_MATCHES_TO_CORRECT ==> result == first)
           && (|first| >= MIN_MATCHES_TO_CORRECT ==> Added(corrected, result) == [] || |result| >= |first| + CORRECTION_ROUNDS))
  {
    var result := AllMatches(determinant, candidates, corrected);
    AllMatchesAreOneToOne(determinant, candidates, corrected);
    ChosenIsAFullPass(candidates);
    var first := MatchesOf(Chosen(candidates, {}, {}));
    if !Singular(determinant) {
      assert first == FirstMatches(determinant, candidates) && first <= result;
      forall x | x in candidates ensures Overtaken(x, result) {
        var m :| m in first && (m.newIndex == x.newIndex || m.oldIndex == x.oldIndex) && m.iou >= x.iou;
        assert m in result;
      }
      assert InjectiveMatches(first);
      RoundsGrowAndSettle(corrected, first, CORRECTION_ROUNDS);
    }
  }

  /** What a regular alignment returns overlaps at least half as much as any one-to-one choice of the candidates. */
  lemma MatchingIsHalfOptimal(determinant: real, candidates: seq<Candidate>, corrected: Corrector, picks: seq<Candidate>)
    requires !Singular(determinant) && NonNegative(corrected) && forall c :: c in candidates ==> c.iou >= 0.0
    requires OneToOne(picks) && forall x :: x in picks ==> x in candidates
    ensures Total(picks) <= 2.0 * MatchTotal(AllMatches(determinant, candidates, corrected))
  {
    AssignmentIsHalfOptimal(candidates, {}, {}, picks);
    MatchTotalOf(Chosen(candidates, {}, {}));
    RoundsOnlyAdd(corrected, FirstMatches(determinant, candidates), CORRECTION_ROUNDS);
  }

  /** Each match is that of a candidate, or of a pair that was proposed for the matches before it. */
  ghost predicate Proposed(candidates: seq<Candidate>, corrected: Corrector, ms: seq<Match>, i: nat)
    requires i < |ms|
  {
    || FromSome(ms[i], candidates)
    || exists n :: 0 <= n <= i && FromSome(ms[i], corrected(ms[..n], NewIndices(ms[..n]), OldIndices(ms[..n])))
  }

  ghost predicate AllProposed(candidates: seq<Candidate>, corrected: Corrector, ms: seq<Match>) {
    forall i: nat :: i < |ms| ==> Proposed(candidates, corrected, ms, i)
  }

  lemma AddedIsProposed(candidates: seq<Candidate>, corrected: Corrector, matches: seq<Match>)
    requires AllProposed(candidates, corrected, matches)
    ensures AllProposed(candidates, corrected, matches + Added(corrected, matches))
  {
    var (news, olds) := (NewIndices(matches), OldIndices(matches));
    var kept := Chosen(corrected(matches, news, olds), news, olds);
    AssignmentIsStable(corrected(matches, news, olds), news, olds);
    var all := matches + MatchesOf(kept);
    forall i: nat | i < |all| ensures Proposed(candidates, corrected, all, i) {
      if i < |matches| {
        assert Proposed(candidates, corrected, matches, i);
        forall n | 0 <= n <= i ensures all[..n] == matches[..n] {}
      } else {
        assert kept[i - |matches|] in kept && all[..|matches|] == matches;
        assert FromSome(all[i], corrected(matches, news, olds));
      }
    }
  }

  lemma {:induction false} RoundsAreProposed(candidates: seq<Candidate>, corrected: Corrector, matches: seq<Match>, rounds: nat)
    requires AllProposed(candidates, corrected, matches)
    ensures AllProposed(candidates, corrected, Rounds(corrected, matches, rounds))
    decreases rounds
  {
    if rounds > 0 && Added(corrected, matches) != [] {
      AddedIsProposed(candidates, corrected, matches);
      hide AllProposed, Added;
      RoundsAreProposed(candidates, corrected, matches + Added(corrected, matches), rounds - 1);
    }
  }

  lemma NothingIsMadeUp(determinant: real, candidates: seq<Candidate>, corrected: Corrector)
    ensures AllProposed(candidates, corrected, AllMatches(determinant, candidates, corrected))
  {
    var first := FirstMatches(determinant, candidates);
    ChosenIsAFullPass(candidates);
    forall i: nat | i < |first| ensures Proposed(candidates, corrected, first, i) { assert first[i] in first; }
    RoundsAreProposed(candidates, corrected, first, CORRECTION_ROUNDS);
  }

  ghost predicate InRange(ms: seq<Match>, newCount: nat, oldCount: nat) {
    forall m :: m in ms ==> m.newIndex < newCount && m.oldIndex < oldCount
  }

  ghost predicate CandidatesInRange(cs: seq<Candidate>, newCount: nat, oldCount: nat) {
    forall c :: c in cs ==> c.newIndex < newCount && c.oldIndex < oldCount
  }

  lemma ChosenInRange(cs: seq<Candidate>, news: set<nat>, olds: set<nat>, newCount: nat, oldCount: nat)
    requires CandidatesInRange(cs, newCount, oldCount)
    ensures InRange(MatchesOf(Chosen(cs, news, olds)), newCount, oldCount)
  {
    AssignmentIsStable(cs, news, olds);
  }

  lemma {:induction false} RoundsInRange(corrected: Corrector, matches: seq<Match>, rounds: nat, newCount: nat, oldCount: nat)
    requires InRange(matches, newCount, oldCount)
    requires forall ms, news, olds :: CandidatesInRange(corrected(ms, news, olds), newCount, oldCount)
    ensures InRange(Rounds(corrected, matches, rounds), newCount, oldCount)
    decreases rounds
  {
    if rounds > 0 && Added(corrected, matches) != [] {
      ChosenInRange(corrected(matches, NewIndices(matches), OldIndices(matches)),
                    NewIndices(matches), OldIndices(matches), newCount, oldCount);
      RoundsInRange(corrected, matches + Added(corrected, matches), rounds - 1, newCount, oldCount);
    }
  }

  /** Every index handed to the result writer addresses a detected hold and a loaded old hold. */
  lemma AllMatchesInRange(determinant: real, candidates: seq<Candidate>, corrected: Corrector, newCount: nat, oldCount: nat)
    requires CandidatesInRange(candidates, newCount, oldCount)
    requires forall ms, news, olds :: CandidatesInRange(corrected(ms, news, olds), newCount, oldCount)
    ensures InRange(AllMatches(determinant, candidates, corrected), newCount, oldCount)
  {
    ChosenInRange(candidates, {}, {}, newCount, oldCount);
    RoundsInRange(corrected, FirstMatches(determinant, candidates), CORRECTION_ROUNDS, newCount, oldCount);
  }

  lemma IndicesOfConcat(a: seq<Match>, b: seq<Match>)
    ensures NewIndices(a + b) == NewIndices(a) + NewIndices(b)
    ensures OldIndices(a + b) == OldIndices(a) + OldIndices(b)
  {
    assert forall x :: x in a + b <==> x in a || x in b;
  }

  method CorrectMatches(corrected: Corrector, first: seq<Match>, rounds: nat) returns (matches: seq<Match>)
    ensures matches == Rounds(corrected, first, rounds)
  {
    matches := first;
    var used := new UsedIndices(NewIndices(matches), OldIndices(matches));
    for round := 0 to rounds
      invariant used.news == NewIndices(matches) && used.olds == OldIndices(matches)
      invariant Rounds(corrected, first, rounds) == Rounds(corrected, matches, rounds - round)
    {
      var added := GreedyAssign(corrected(matches, used.news, used.olds), used);
      if added == [] {
        break;
      }
      IndicesOfConcat(matches, added);
      matches := matches + added;
    }
  }

  method MatchHolds(determinant: real, candidates: seq<Candidate>, corrected: Corrector) returns (matches: seq<Match>)
    ensures matches == AllMatches(determinant, candidates, corrected)
  {
    if -MIN_DETERMINANT < determinant < MIN_DETERMINANT {
      return [];
    }
    var used := new UsedIndices({}, {});
    matches := GreedyAssign(candidates, used);
    if |matches| >= MIN_MATCHES_TO_CORRECT {
      matches := CorrectMatches(corrected, matches, CORRECTION_ROUNDS);
    }
  }
}
