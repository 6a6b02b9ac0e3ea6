/**
 Sums of the values of a finite map, independent of the order of the keys, and of
 a sequence.
 */
module Sums {
  ghost function Sum(m: map<string, int>): int
    decreases |m|
  {
    if m == map[] then 0
    else
      var k :| k in m;
      assert (m - {k}).Keys == m.Keys - {k};
      m[k] + Sum(m - {k})
  }

  lemma {:induction false} SumPick(m: map<string, int>, k: string)
    requires k in m
    ensures Sum(m) == m[k] + Sum(m - {k})
    decreases |m|
  {
    var c :| c in m && Sum(m) == m[c] + Sum(m - {c});
    assert (m - {c}).Keys == m.Keys - {c};
    assert (m - {k}).Keys == m.Keys - {k};
    if c != k {
      SumPick(m - {c}, k);
      SumPick(m - {k}, c);
      assert m - {c} - {k} == m - {k} - {c};
    }
  }

  lemma SumUpdate(m: map<string, int>, k: string, v: int)
    ensures Sum(m[k := v]) == Sum(m) - (if k in m then m[k] else 0) + v
  {
    SumPick(m[k := v], k);
    assert m[k := v] - {k} == m - {k};
    if k in m {
      SumPick(m, k);
    } else {
      assert m - {k} == m;
    }
  }

  // ---------- sequences ----------

  function Total(s: seq<int>): int {
    if s == [] then 0 else Total(s[..|s| - 1]) + s[|s| - 1]
  }

  // Every element counts once, wherever it stands.
  lemma {:induction false} TotalAt(s: seq<int>, i: nat)
    requires i < |s|
    ensures Total(s) == Total(s[..i]) + s[i] + Total(s[i + 1..])
  {
    var n := |s| - 1;
    if i < n {
      TotalAt(s[..n], i);
      assert s[..n][..i] == s[..i] && s[..n][i + 1..] == s[i + 1..][..n - i - 1];
      assert s[i + 1..][n - i - 1] == s[n];
    } else {
      assert s[i + 1..] == [];
    }
  }

  lemma TotalSnoc(s: seq<int>, x: int)
    ensures Total(s + [x]) == Total(s) + x
  {
    assert (s + [x])[..|s|] == s;
  }
}
