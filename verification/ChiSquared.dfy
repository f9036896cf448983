/**
 The chi-squared combination of token probabilities: a stable sort by distance
 from one half, a cut to the 15 most extreme, and two incomplete gamma values.
 */
module ChiSquared {
  import opened RealFacts
  import opened IncompleteGamma

  const CUT := 15
  const LOG_FLOOR: real := 1.0 / Pow(10.0, 200)

  function Extremity(p: real): real { Abs(p - 0.5) }

  // ----- sorted(..., key=extremity, reverse=True)[:N] -----

  /** Before the first element that is not more extreme, so equal elements keep their order. */
  function Insert(p: real, s: seq<real>): seq<real> {
    if s == [] || Extremity(p) >= Extremity(s[0]) then [p] + s
    else [s[0]] + Insert(p, s[1..])
  }

  function Sort(ps: seq<real>): seq<real> {
    if ps == [] then [] else Insert(ps[0], Sort(ps[1..]))
  }

  function Cut(n: nat): nat { if n < CUT then n else CUT }

  function Select(ps: seq<real>): (r: seq<real>)
    ensures |r| == Cut(|ps|)
  {
    SortPermutes(ps);
    Sort(ps)[..Cut(|ps|)]
  }

  ghost predicate Descending(s: seq<real>) {
    forall i, j :: 0 <= i < j < |s| ==> Extremity(s[i]) >= Extremity(s[j])
  }

  lemma {:induction false} InsertAdds(p: real, s: seq<real>)
    ensures multiset(Insert(p, s)) == multiset{p} + multiset(s)
  {
    if s != [] && Extremity(p) < Extremity(s[0]) {
      InsertAdds(p, s[1..]);
      assert s == [s[0]] + s[1..];
    }
  }

  lemma ConsDescending(x: real, s: seq<real>)
    requires Descending(s) && forall y :: y in s ==> Extremity(x) >= Extremity(y)
    ensures Descending([x] + s)
  {
    hide Extremity;
    var r := [x] + s;
    forall i, j | 0 <= i < j < |r| ensures Extremity(r[i]) >= Extremity(r[j]) {
      assert r[j] == s[j - 1];
      assert i > 0 ==> r[i] == s[i - 1];
    }
  }

  lemma {:induction false} InsertKeeps(p: real, s: seq<real>)
    requires Descending(s)
    ensures Descending(Insert(p, s))
  {
    hide Extremity;
    if s == [] || Extremity(p) >= Extremity(s[0]) {
      ConsDescending(p, s);
    } else {
      var r := Insert(p, s[1..]);
      InsertKeeps(p, s[1..]);
      InsertAdds(p, s[1..]);
      forall y | y in r ensures Extremity(s[0]) >= Extremity(y) {
        assert y in multiset(r);
        assert y == p || y in s[1..];
      }
      ConsDescending(s[0], r);
    }
  }

  lemma {:induction false} SortPermutes(ps: seq<real>)
    ensures multiset(Sort(ps)) == multiset(ps) && |Sort(ps)| == |ps|
    ensures Descending(Sort(ps))
  {
    if ps != [] {
      SortPermutes(ps[1..]);
      InsertKeeps(ps[0], Sort(ps[1..]));
      InsertAdds(ps[0], Sort(ps[1..]));
      assert ps == [ps[0]] + ps[1..];
    }
    assert |multiset(Sort(ps))| == |Sort(ps)|;
  }

  /** The elements of extremity e, in order. */
  function Alike(s: seq<real>, e: real): seq<real> {
    if s == [] then [] else (if Extremity(s[0]) == e then [s[0]] else []) + Alike(s[1..], e)
  }

  lemma {:induction false} InsertIsStable(p: real, s: seq<real>, e: real)
    requires Descending(s)
    ensures Alike(Insert(p, s), e) == Alike([p] + s, e)
  {
    assert ([p] + s)[1..] == s;
    if s != [] && Extremity(p) < Extremity(s[0]) {
      InsertIsStable(p, s[1..], e);
      var t := Insert(p, s[1..]);
      assert ([s[0]] + t)[1..] == t && ([p] + s[1..])[1..] == s[1..];
    }
  }

  /** Equally extreme probabilities keep their order, as Python's sort promises. */
  lemma {:induction false} SortIsStable(ps: seq<real>, e: real)
    ensures Alike(Sort(ps), e) == Alike(ps, e)
  {
    if ps != [] {
      SortIsStable(ps[1..], e);
      SortPermutes(ps[1..]);
      InsertIsStable(ps[0], Sort(ps[1..]), e);
      assert ([ps[0]] + Sort(ps[1..]))[1..] == Sort(ps[1..]);
    }
  }

  lemma {:induction false} SortedStays(s: seq<real>)
    requires Descending(s)
    ensures Sort(s) == s
  {
    if s != [] {
      SortedStays(s[1..]);
      assert s == [s[0]] + s[1..];
    }
  }

  function FromHalf(p: real): real {
    if p < 0.5 then 0.5 - p else p - 0.5
  }

  /** The kept ones are at most 15, all of them if there are fewer, and none farther from one half is dropped. */
  lemma KeepsMostExtreme(ps: seq<real>) returns (dropped: seq<real>)
    ensures |Select(ps)| == if |ps| < 15 then |ps| else 15
    ensures multiset(ps) == multiset(Select(ps)) + multiset(dropped)
    ensures forall p, q :: p in Select(ps) && q in dropped ==> FromHalf(p) >= FromHalf(q)
  {
    SortPermutes(ps);
    hide Sort, Extremity, FromHalf;
    var s, n := Sort(ps), Cut(|ps|);
    dropped := s[n..];
    assert s == s[..n] + s[n..];
    forall p, q | p in s[..n] && q in dropped ensures FromHalf(p) >= FromHalf(q) {
      var i :| 0 <= i < n && s[i] == p;
      var j :| 0 <= j < |dropped| && dropped[j] == q;
      assert s[n + j] == q;
      FromHalfIsExtremity(p);
      FromHalfIsExtremity(q);
    }
  }

  lemma FromHalfIsExtremity(p: real)
    ensures FromHalf(p) == Extremity(p)
  {
  }

  // ----- the score -----

  function Floored(p: real): real { if p < LOG_FLOOR then LOG_FLOOR else p }

  function LogSum(f: Elementary, s: seq<real>): real {
    if s == [] then 0.0 else f.Log(Floored(s[0])) + LogSum(f, s[1..])
  }

  function Complement(s: seq<real>): (r: seq<real>)
    ensures |r| == |s|
  {
    seq(|s|, i requires 0 <= i < |s| => 1.0 - s[i])
  }

  function Score(f: Elementary, ps: seq<real>): real {
    if ps == [] then 0.5
    else
      var n := Cut(|ps|);
      var selected := Select(ps);
      var h := -2.0 * LogSum(f, selected);
      var s := -2.0 * LogSum(f, Complement(selected));
      (P(f, n, s / 2.0) - P(f, n, h / 2.0) + 1.0) / 2.0
  }

  /** The score from the two sums of logarithms. */
  function Combined(f: Elementary, n: nat, forSpam: real, forHam: real): real {
    (P(f, n, -2.0 * forHam / 2.0) - P(f, n, -2.0 * forSpam / 2.0) + 1.0) / 2.0
  }

  lemma CombinedSwapped(f: Elementary, n: nat, x: real, y: real)
    ensures Combined(f, n, x, y) == 1.0 - Combined(f, n, y, x)
  {
    hide P;
  }

  lemma ScoreOf(f: Elementary, ps: seq<real>)
    requires ps != []
    ensures Score(f, ps) == Combined(f, Cut(|ps|), LogSum(f, Select(ps)), LogSum(f, Complement(Select(ps))))
  {
    hide P, LogSum, Select, Complement;
  }

  lemma ScoreOfNone(f: Elementary, ps: seq<real>)
    requires ps == []
    ensures Score(f, ps) == 0.5 && Complement(ps) == []
  {
  }

  /** The documented range of the score. */
  lemma ScoreIsProbability(f: Elementary, ps: seq<real>)
    requires f.Lawful()
    ensures 0.0 <= Score(f, ps) <= 1.0
  {
    hide P, LogSum, Select, Complement;
    if ps != [] {
      var n := Cut(|ps|);
      PIsProbability(f, n, -2.0 * LogSum(f, Select(ps)) / 2.0);
      PIsProbability(f, n, -2.0 * LogSum(f, Complement(Select(ps))) / 2.0);
    }
  }

  // ----- complement symmetry -----

  lemma ComplementHeadTail(s: seq<real>)
    requires s != []
    ensures Complement(s) == [1.0 - s[0]] + Complement(s[1..])
  {
  }

  lemma {:induction false} InsertComplement(p: real, s: seq<real>)
    ensures Insert(1.0 - p, Complement(s)) == Complement(Insert(p, s))
  {
    assert forall q: real :: Extremity(1.0 - q) == Extremity(q);
    if s == [] || Extremity(p) >= Extremity(s[0]) {
      assert Complement([p] + s) == [1.0 - p] + Complement(s);
    } else {
      InsertComplement(p, s[1..]);
      ComplementHeadTail(s);
      ComplementHeadTail([s[0]] + Insert(p, s[1..]));
      assert ([s[0]] + Insert(p, s[1..]))[1..] == Insert(p, s[1..]);
    }
  }

  lemma {:induction false} SortComplement(ps: seq<real>)
    ensures Sort(Complement(ps)) == Complement(Sort(ps))
  {
    if ps != [] {
      ComplementHeadTail(ps);
      assert Complement(ps)[1..] == Complement(ps[1..]);
      SortComplement(ps[1..]);
      InsertComplement(ps[0], Sort(ps[1..]));
    }
  }

  lemma SelectComplement(ps: seq<real>)
    ensures Select(Complement(ps)) == Complement(Select(ps))
    ensures Complement(Select(Complement(ps))) == Select(ps)
  {
    SortComplement(ps);
    SortPermutes(ps);
    hide Sort;
    var s := Select(ps);
    assert Select(Complement(ps)) == Complement(s);
    assert Complement(Complement(s)) == s;
  }

  /** Replacing every p by 1 - p turns the score s into 1 - s. */
  lemma ComplementSymmetry(f: Elementary, ps: seq<real>)
    ensures Score(f, Complement(ps)) == 1.0 - Score(f, ps)
  {
    hide *;
    if ps == [] {
      ScoreOfNone(f, ps);
    } else {
      var s := Select(ps);
      SelectComplement(ps);
      ScoreOf(f, ps);
      ScoreOf(f, Complement(ps));
      CombinedSwapped(f, Cut(|ps|), LogSum(f, s), LogSum(f, Complement(s)));
    }
  }

  // ----- dependence on the order of the tokens -----

  /** No two different probabilities of equal extremity lie on both sides of the cut. */
  ghost predicate NoStraddle(ps: seq<real>) {
    var s := Sort(ps);
    forall i, j :: 0 <= i < CUT <= j < |s| && Extremity(s[i]) == Extremity(s[j]) ==> s[i] == s[j]
  }

  function Without(s: seq<real>, k: nat): seq<real>
    requires k < |s|
  {
    s[..k] + s[k + 1..]
  }

  /** An element of s occurs in every permutation of s; taking it out of both leaves permutations. */
  lemma RemoveOne(s: seq<real>, t: seq<real>) returns (k: nat)
    requires s != [] && multiset(s) == multiset(t)
    ensures k < |t| && t[k] == s[0] && multiset(s[1..]) == multiset(Without(t, k))
  {
    assert s[0] in multiset(t);
    k :| k < |t| && t[k] == s[0];
    assert s == [s[0]] + s[1..];
    assert t == t[..k] + [t[k]] + t[k + 1..];
    assert multiset(s[1..]) == multiset(s) - multiset{s[0]};
    assert multiset(Without(t, k)) == multiset(t) - multiset{t[k]};
  }

  lemma {:induction false} LogSumWithout(f: Elementary, s: seq<real>, k: nat)
    requires k < |s|
    ensures LogSum(f, s) == f.Log(Floored(s[k])) + LogSum(f, Without(s, k))
  {
    if k == 0 {
      assert Without(s, 0) == s[1..];
    } else {
      LogSumWithout(f, s[1..], k - 1);
      assert Without(s, k)[1..] == Without(s[1..], k - 1);
    }
  }

  lemma {:induction false} LogSumPermuted(f: Elementary, s: seq<real>, t: seq<real>)
    requires multiset(s) == multiset(t)
    ensures LogSum(f, s) == LogSum(f, t)
    decreases |s|
  {
    if s == [] {
      assert |multiset(t)| == 0;
    } else {
      var k := RemoveOne(s, t);
      LogSumPermuted(f, s[1..], Without(t, k));
      LogSumWithout(f, t, k);
    }
  }

  lemma {:induction false} ComplementPermuted(s: seq<real>, t: seq<real>)
    requires multiset(s) == multiset(t)
    ensures multiset(Complement(s)) == multiset(Complement(t))
    decreases |s|
  {
    if s == [] {
      assert |multiset(t)| == 0;
    } else {
      var k := RemoveOne(s, t);
      ComplementPermuted(s[1..], Without(t, k));
      ComplementHeadTail(s);
      assert Complement(t) == Complement(t[..k]) + [1.0 - t[k]] + Complement(t[k + 1..]);
      assert Complement(Without(t, k)) == Complement(t[..k]) + Complement(t[k + 1..]);
    }
  }

  function Extremities(s: seq<real>): (r: seq<real>)
    ensures |r| == |s|
  {
    seq(|s|, i requires 0 <= i < |s| => Extremity(s[i]))
  }

  lemma {:induction false} ExtremitiesPermuted(s: seq<real>, t: seq<real>)
    requires multiset(s) == multiset(t)
    ensures multiset(Extremities(s)) == multiset(Extremities(t))
    decreases |s|
  {
    if s == [] {
      assert |multiset(t)| == 0;
    } else {
      var k := RemoveOne(s, t);
      ExtremitiesPermuted(s[1..], Without(t, k));
      assert Extremities(s) == [Extremity(s[0])] + Extremities(s[1..]);
      assert Extremities(t) == Extremities(t[..k]) + [Extremity(t[k])] + Extremities(t[k + 1..]);
      assert Extremities(Without(t, k)) == Extremities(t[..k]) + Extremities(t[k + 1..]);
    }
  }

  ghost predicate Falling(s: seq<real>) {
    forall i, j :: 0 <= i < j < |s| ==> s[i] >= s[j]
  }

  lemma {:induction false} FallingUnique(s: seq<real>, t: seq<real>)
    requires Falling(s) && Falling(t) && multiset(s) == multiset(t)
    ensures s == t
    decreases |s|
  {
    assert |multiset(s)| == |s| && |multiset(t)| == |t|;
    if s != [] {
      assert s[0] in multiset(t) && t[0] in multiset(s);
      assert s[0] == t[0];
      assert s == [s[0]] + s[1..] && t == [t[0]] + t[1..];
      assert multiset(s[1..]) == multiset(s) - multiset{s[0]};
      assert multiset(t[1..]) == multiset(t) - multiset{t[0]};
      FallingUnique(s[1..], t[1..]);
    }
  }

  /** Sorted permutations agree in extremity at every position. */
  lemma SameExtremities(s: seq<real>, t: seq<real>)
    requires Descending(s) && Descending(t) && multiset(s) == multiset(t)
    ensures |s| == |t| && Extremities(s) == Extremities(t)
  {
    ExtremitiesPermuted(s, t);
    FallingUnique(Extremities(s), Extremities(t));
  }

  lemma EqualButForOne(a: multiset<real>, c: multiset<real>, v: real)
    requires |a| == |c| && forall u :: u != v ==> a[u] == c[u]
    ensures a == c
  {
    var (a', c') := (a[v := 0], c[v := 0]);
    assert a' == c' by {
      assert forall u :: a'[u] == c'[u];
    }
    assert |a'| == |a| - a[v];
    assert |c'| == |c| - c[v];
    assert forall u :: a[u] == c[u];
  }

  lemma CutCounts(s: seq<real>, t: seq<real>, u: real)
    requires |s| == |t| > CUT && Descending(s) && Descending(t) && multiset(s) == multiset(t)
    requires Extremities(s) == Extremities(t)
    requires Extremity(u) != Extremity(s[CUT]) || Extremity(s[CUT - 1]) > Extremity(s[CUT])
    ensures multiset(s[..CUT])[u] == multiset(t[..CUT])[u]
  {
    CountSplit(s, u);
    CountSplit(t, u);
    forall i | 0 <= i < |s| ensures Extremity(s[i]) == Extremity(t[i]) {
      assert Extremities(s)[i] == Extremities(t)[i];
    }
    hide Extremity, Extremities;
    if Extremity(u) > Extremity(s[CUT]) {
      assert u !in s[CUT..] && u !in t[CUT..];
      assert u !in multiset(s[CUT..]) && u !in multiset(t[CUT..]);
    } else {
      assert u !in s[..CUT] && u !in t[..CUT];
      assert u !in multiset(s[..CUT]) && u !in multiset(t[..CUT]);
    }
  }

  lemma CountSplit(s: seq<real>, u: real)
    requires |s| > CUT
    ensures multiset(s)[u] == multiset(s[..CUT])[u] + multiset(s[CUT..])[u]
  {
    assert s == s[..CUT] + s[CUT..];
  }

  lemma SameCut(ps: seq<real>, qs: seq<real>)
    requires multiset(ps) == multiset(qs) && NoStraddle(ps)
    ensures multiset(Select(ps)) == multiset(Select(qs))
  {
    var s, t := Sort(ps), Sort(qs);
    SortPermutes(ps);
    SortPermutes(qs);
    SameExtremities(s, t);
    if |s| <= CUT {
      assert Select(ps) == s && Select(qs) == t;
    } else {
      var a, c, v := multiset(s[..CUT]), multiset(t[..CUT]), s[CUT];
      forall u | u != v ensures a[u] == c[u] {
        if Extremity(u) == Extremity(v) && Extremity(s[CUT - 1]) == Extremity(v) {
          assert s[CUT - 1] == v;
          assert u !in s;
          assert u !in multiset(s);
          CountSplit(s, u);
          CountSplit(t, u);
        } else {
          CutCounts(s, t, u);
        }
      }
      EqualButForOne(a, c, v);
    }
  }

  /** Exactly when the order of the tokens cannot change which probabilities are kept. */
  lemma SelectionOrderFree(ps: seq<real>)
    ensures NoStraddle(ps) <==> (forall qs :: multiset(qs) == multiset(ps) ==> multiset(Select(qs)) == multiset(Select(ps)))
  {
    if NoStraddle(ps) {
      forall qs | multiset(qs) == multiset(ps) ensures multiset(Select(qs)) == multiset(Select(ps)) {
        SameCut(ps, qs);
      }
    } else {
      var qs := Straddled(ps);
    }
  }

  /** A permutation that swaps two straddling probabilities keeps the other one. */
  lemma Straddled(ps: seq<real>) returns (qs: seq<real>)
    requires !NoStraddle(ps)
    ensures multiset(qs) == multiset(ps) && multiset(Select(qs)) != multiset(Select(ps))
  {
    var s := Sort(ps);
    SortPermutes(ps);
    hide Extremity, Sort, Insert;
    var i, j :| 0 <= i < CUT <= j < |s| && Extremity(s[i]) == Extremity(s[j]) && s[i] != s[j];
    qs := s[i := s[j]][j := s[i]];
    SwapPermutes(s, i, j);
    SwapDescending(s, i, j);
    SortedStays(qs);
    assert Select(ps) == s[..CUT] && Select(qs) == s[..CUT][i := s[j]];
    ReplacedDiffers(s[..CUT], i, s[j]);
  }

  lemma SwapPermutes(s: seq<real>, i: nat, j: nat)
    requires i < j < |s|
    ensures multiset(s[i := s[j]][j := s[i]]) == multiset(s)
  {
  }

  lemma ReplacedDiffers(s: seq<real>, i: nat, y: real)
    requires i < |s| && s[i] != y
    ensures multiset(s[i := y]) != multiset(s)
  {
    assert multiset(s[i := y])[s[i]] == multiset(s)[s[i]] - 1;
  }

  lemma SwapDescending(s: seq<real>, i: nat, j: nat)
    requires Descending(s) && i < j < |s| && Extremity(s[i]) == Extremity(s[j])
    ensures Descending(s[i := s[j]][j := s[i]])
  {
    hide Extremity;
    var t := s[i := s[j]][j := s[i]];
    assert forall k :: 0 <= k < |s| ==> Extremity(t[k]) == Extremity(s[k]);
  }

  /** Permuting the tokens leaves the score unchanged when nothing straddles the cut. */
  lemma ScoreOrderFree(f: Elementary, ps: seq<real>, qs: seq<real>)
    requires multiset(ps) == multiset(qs) && NoStraddle(ps)
    ensures Score(f, qs) == Score(f, ps)
  {
    assert |multiset(ps)| == |ps| && |multiset(qs)| == |qs|;
    hide *;
    if ps == [] {
      assert ps == qs;
    } else {
      SameCut(ps, qs);
      LogSumPermuted(f, Select(ps), Select(qs));
      ComplementPermuted(Select(ps), Select(qs));
      LogSumPermuted(f, Complement(Select(ps)), Complement(Select(qs)));
      ScoreOf(f, ps);
      ScoreOf(f, qs);
    }
  }
}
