/** Counting with finite sets. */
module Sets {
  /** The numbers below n. */
  function UpTo(n: nat): (s: set<int>)
    ensures |s| == n && forall k :: k in s <==> 0 <= k < n
  {
    if n == 0 then {} else UpTo(n - 1) + {n - 1}
  }

  /** A subset that is as large as the set is the whole set. */
  lemma {:induction false} FullSubset<T>(a: set<T>, b: set<T>)
    requires a <= b && |b| <= |a|
    ensures a == b
  {
    if a == {} {
      assert b == {};
    } else {
      var x :| x in a;
      FullSubset(a - {x}, b - {x});
    }
  }

  /** The places of a sequence at which something holds. */
  ghost function Where<T>(s: seq<T>, holds: T -> bool): set<int> {
    set i | 0 <= i < |s| && holds(s[i])
  }

  lemma WhereOneMore<T>(s: seq<T>, x: T, holds: T -> bool)
    ensures |Where(s + [x], holds)| == |Where(s, holds)| + if holds(x) then 1 else 0
  {
    var longer, before := s + [x], Where(s, holds);
    assert forall i :: 0 <= i < |s| ==> longer[i] == s[i];
    assert Where(longer, holds) == before + if holds(x) then {|s|} else {};
    assert |s| !in before;
  }

  /** The same for all but the last of a sequence. */
  lemma WhereLast<T>(s: seq<T>, holds: T -> bool)
    requires s != []
    ensures var n := |s| - 1;
      |Where(s, holds)| == |Where(s[..n], holds)| + if holds(s[n]) then 1 else 0
  {
    var n := |s| - 1;
    WhereOneMore(s[..n], s[n], holds);
    assert s == s[..n] + [s[n]];
  }
}
