/**
 Redis sorted sets: members with scores, ordered by (score, member), the way
 ZADD, ZREM, ZREVRANGE and ZREMRANGEBYRANK see them.
 */
module SortedSets {
  datatype Entry = Entry(score: int, member: string)

  // Byte order on members.
  predicate TextLess(a: string, b: string) {
    if b == [] then false
    else if a == [] then true
    else a[0] < b[0] || (a[0] == b[0] && TextLess(a[1..], b[1..]))
  }

  predicate Less(a: Entry, b: Entry) {
    a.score < b.score || (a.score == b.score && TextLess(a.member, b.member))
  }

  // The texts agree before position k; there a has ended and b has not, or a
  // goes on with the smaller character.
  ghost predicate Before(a: string, b: string, k: nat) {
    k <= |a| && k < |b| && a[..k] == b[..k] && (k == |a| || a[k] < b[k])
  }

  lemma BeforeTail(a: string, b: string, k: nat)
    requires a != [] && b != [] && a[0] == b[0]
    ensures Before(a[1..], b[1..], k) <==> Before(a, b, k + 1)
  {
    if k < |a| && k + 1 < |b| {
      assert a[..k + 1] == [a[0]] + a[1..][..k] && b[..k + 1] == [b[0]] + b[1..][..k];
      assert a[1..][..k] == a[..k + 1][1..] && b[1..][..k] == b[..k + 1][1..];
    }
  }

  lemma {:induction false} TextLessIff(a: string, b: string)
    ensures TextLess(a, b) <==> exists k: nat :: Before(a, b, k)
  {
    if a == [] || b == [] || a[0] < b[0] {
      if b != [] { assert Before(a, b, 0); }
    } else if a[0] == b[0] {
      TextLessIff(a[1..], b[1..]);
      if TextLess(a, b) {
        var k: nat :| Before(a[1..], b[1..], k);
        BeforeTail(a, b, k);
      }
      if k: nat :| Before(a, b, k) {
        assert k > 0;
        BeforeTail(a, b, k - 1);
      }
    } else {
      forall k: nat ensures !Before(a, b, k) {
        if 0 < k <= |a| && k < |b| { assert a[..k][0] == a[0] && b[..k][0] == b[0]; }
      }
    }
  }

  lemma {:induction false} TextLessTransitive(a: string, b: string, c: string)
    requires TextLess(a, b) && TextLess(b, c)
    ensures TextLess(a, c)
  {
    if a != [] && a[0] == b[0] == c[0] {
      TextLessTransitive(a[1..], b[1..], c[1..]);
    }
  }

  // Exactly one of a < b, a == b, b < a.
  lemma {:induction false} TextLessTotal(a: string, b: string)
    ensures TextLess(a, b) || a == b || TextLess(b, a)
    ensures !(TextLess(a, b) && TextLess(b, a))
    ensures !TextLess(a, a)
  {
    if a != [] && b != [] {
      TextLessTotal(a[1..], b[1..]);
      TextLessTotal(a[1..], a[1..]);
      assert a[0] == b[0] && a[1..] == b[1..] ==> a == [a[0]] + a[1..] == b;
    } else if a != [] {
      TextLessTotal(a[1..], a[1..]);
    }
  }

  lemma LessTransitive(a: Entry, b: Entry, c: Entry)
    requires Less(a, b) && Less(b, c)
    ensures Less(a, c)
  {
    if a.score == c.score {
      TextLessTransitive(a.member, b.member, c.member);
    }
  }

  lemma LessTotal(a: Entry, b: Entry)
    ensures Less(a, b) || a == b || Less(b, a)
    ensures !(Less(a, b) && Less(b, a))
  {
    TextLessTotal(a.member, b.member);
  }

  ghost predicate Sorted(z: seq<Entry>) {
    forall i, j :: 0 <= i < j < |z| ==> Less(z[i], z[j])
  }

  ghost predicate Distinct(z: seq<Entry>) {
    forall i, j :: 0 <= i < j < |z| ==> z[i].member != z[j].member
  }

  ghost predicate IsZSet(z: seq<Entry>) {
    Sorted(z) && Distinct(z)
  }

  type ZSet = z: seq<Entry> | IsZSet(z)

  ghost function Names(z: seq<Entry>): set<string> {
    set e | e in z :: e.member
  }

  // ZSCORE of a member.
  function ScoreOf(z: seq<Entry>, member: string): int {
    if z == [] then 0
    else if z[0].member == member then z[0].score
    else ScoreOf(z[1..], member)
  }

  // The scores, forgetting the order.
  ghost function Scores(z: ZSet): map<string, int> {
    map m | m in Names(z) :: ScoreOf(z, m)
  }

  lemma {:induction false} ScoreOfEntry(z: seq<Entry>, e: Entry)
    requires Distinct(z) && e in z
    ensures ScoreOf(z, e.member) == e.score
  {
    var i :| 0 <= i < |z| && z[i] == e;
    if i > 0 {
      assert z[1..][i - 1] == e;
      ScoreOfEntry(z[1..], e);
    }
  }

  // Exactly the entries, by member.
  lemma ScoresAre(z: ZSet)
    ensures forall e :: e in z ==> e.member in Scores(z) && Scores(z)[e.member] == e.score
    ensures forall m :: m in Scores(z) ==> Entry(Scores(z)[m], m) in z
  {
    forall e | e in z ensures e.member in Scores(z) && Scores(z)[e.member] == e.score {
      ScoreOfEntry(z, e);
    }
    forall m | m in Scores(z) ensures Entry(Scores(z)[m], m) in z {
      var e :| e in z && e.member == m;
      ScoreOfEntry(z, e);
    }
  }

  // ---------- ZREM and ZADD ----------

  function Without(z: seq<Entry>, member: string): seq<Entry> {
    if z == [] then []
    else if z[0].member == member then z[1..]
    else [z[0]] + Without(z[1..], member)
  }

  function Insert(z: seq<Entry>, e: Entry): seq<Entry> {
    if z == [] || Less(e, z[0]) then [e] + z
    else [z[0]] + Insert(z[1..], e)
  }

  lemma HeadOf(z: seq<Entry>)
    requires IsZSet(z) && z != []
    ensures IsZSet(z[1..])
    ensures forall x :: x in z[1..] ==> Less(z[0], x) && z[0].member != x.member
    ensures forall x :: x in z <==> x == z[0] || x in z[1..]
  {
    assert z == [z[0]] + z[1..];
  }

  lemma ConsIsZSet(e: Entry, z: seq<Entry>)
    requires IsZSet(z)
    requires forall x :: x in z ==> Less(e, x) && e.member != x.member
    ensures IsZSet([e] + z)
  {
    var r := [e] + z;
    forall i, j | 0 <= i < j < |r| ensures Less(r[i], r[j]) && r[i].member != r[j].member {
      assert r[j] == z[j - 1] && z[j - 1] in z;
    }
  }

  lemma {:induction false} WithoutFacts(z: seq<Entry>, member: string)
    requires IsZSet(z)
    ensures IsZSet(Without(z, member))
    ensures forall e :: e in Without(z, member) <==> e in z && e.member != member
    ensures |Without(z, member)| <= |z|
  {
    if z != [] {
      HeadOf(z);
      if z[0].member != member {
        WithoutFacts(z[1..], member);
        ConsIsZSet(z[0], Without(z[1..], member));
      }
    }
  }

  lemma {:induction false} InsertFacts(z: seq<Entry>, e: Entry)
    requires IsZSet(z)
    requires forall x :: x in z ==> x.member != e.member
    ensures IsZSet(Insert(z, e))
    ensures forall x :: x in Insert(z, e) <==> x in z || x == e
  {
    if z != [] {
      HeadOf(z);
      if Less(e, z[0]) {
        forall x | x in z ensures Less(e, x) {
          if x != z[0] { LessTransitive(e, z[0], x); }
        }
        ConsIsZSet(e, z);
      } else {
        LessTotal(e, z[0]);
        InsertFacts(z[1..], e);
        ConsIsZSet(z[0], Insert(z[1..], e));
      }
    }
  }

  lemma WithoutScores(z: ZSet, r: ZSet, member: string)
    requires forall e :: e in r <==> e in z && e.member != member
    ensures Scores(r) == Scores(z) - {member}
  {
    ScoresAre(z);
    ScoresAre(r);
    forall m | m in Scores(r) ensures m in Scores(z) && m != member && Scores(z)[m] == Scores(r)[m] {
      assert Entry(Scores(r)[m], m) in r;
    }
    forall m | m in Scores(z) && m != member ensures m in Scores(r) {
      assert Entry(Scores(z)[m], m) in z;
    }
  }

  lemma InsertScores(z: ZSet, r: ZSet, e: Entry)
    requires forall x :: x in r <==> x in z || x == e
    requires e.member !in Scores(z)
    ensures Scores(r) == Scores(z)[e.member := e.score]
  {
    ScoresAre(z);
    ScoresAre(r);
    forall m | m in Scores(r) && m != e.member ensures m in Scores(z) && Scores(z)[m] == Scores(r)[m] {
      assert Entry(Scores(r)[m], m) in r;
    }
    forall m | m in Scores(z) ensures m in Scores(r) {
      assert Entry(Scores(z)[m], m) in z;
    }
    assert e in r;
  }

  function ZRem(z: ZSet, member: string): (r: ZSet)
    ensures Scores(r) == Scores(z) - {member}
    ensures |r| <= |z|
  {
    WithoutFacts(z, member);
    WithoutScores(z, Without(z, member), member);
    Without(z, member)
  }

  lemma Replaced(m: map<string, int>, k: string, v: int)
    ensures (m - {k})[k := v] == m[k := v]
  {
  }

  lemma AddScores(z: ZSet, e: Entry)
    ensures IsZSet(Insert(Without(z, e.member), e))
    ensures Scores(Insert(Without(z, e.member), e)) == Scores(z)[e.member := e.score]
  {
    WithoutFacts(z, e.member);
    var rest: ZSet := Without(z, e.member);
    InsertFacts(rest, e);
    WithoutScores(z, rest, e.member);
    InsertScores(rest, Insert(rest, e), e);
    Replaced(Scores(z), e.member, e.score);
  }

  function ZAdd(z: ZSet, score: int, member: string): (r: ZSet)
    ensures Scores(r) == Scores(z)[member := score]
  {
    AddScores(z, Entry(score, member));
    Insert(Without(z, member), Entry(score, member))
  }

  // ---------- the rank trim ----------

  // The k highest entries.
  function Top(z: seq<Entry>, k: nat): seq<Entry> {
    if |z| <= k then z else z[|z| - k..]
  }

  // ZREMRANGEBYRANK 0 (count - k - 1), run only when count > k.
  function ZTrim(z: ZSet, k: nat): (r: ZSet)
    ensures r == Top(z, k)
    ensures |r| <= k
    ensures Scores(r).Keys <= Scores(z).Keys
  {
    var r := if |z| > k then z[(|z| - k - 1) + 1..] else z;
    assert forall e :: e in r ==> e in z;
    r
  }

  // ---------- streaming top-k ----------

  lemma BelowAll(z: seq<Entry>, e: Entry)
    requires Sorted(z) && z != [] && Less(e, z[0])
    ensures forall j :: 0 <= j < |z| ==> Less(e, z[j])
  {
    forall j | 0 <= j < |z| ensures Less(e, z[j]) {
      if j > 0 { LessTransitive(e, z[0], z[j]); }
    }
  }

  lemma TopOfCons(z: seq<Entry>, e: Entry, k: nat)
    requires |z| >= k
    ensures Top([e] + z, k) == Top(z, k)
  {
  }

  lemma TopOfLowest(z: seq<Entry>, e: Entry, k: nat)
    requires Sorted(z) && |z| > k && Less(e, z[0])
    ensures Top(Insert(Top(z, k), e), k) == Top(Insert(z, e), k)
  {
    BelowAll(z, e);
    var t := Top(z, k);
    assert Insert(t, e) == [e] + t by {
      if t != [] { assert t[0] == z[|z| - k]; }
    }
    TopOfCons(t, e, k);
    TopOfCons(z, e, k);
  }

  // Trimming before an insertion loses nothing that trimming after it would keep.
  lemma {:induction false} TopOfInsert(z: seq<Entry>, e: Entry, k: nat)
    requires Sorted(z)
    ensures Top(Insert(Top(z, k), e), k) == Top(Insert(z, e), k)
  {
    if |z| > k {
      if Less(e, z[0]) {
        TopOfLowest(z, e, k);
      } else {
        var rest := z[1..];
        assert Top(z, k) == Top(rest, k);
        TopOfInsert(rest, e, k);
        InsertLength(rest, e);
        TopOfCons(Insert(rest, e), z[0], k);
      }
    }
  }

  lemma {:induction false} InsertLength(z: seq<Entry>, e: Entry)
    ensures |Insert(z, e)| == |z| + 1
  {
    if z != [] { InsertLength(z[1..], e); }
  }

  // Everything added, in rank order, never trimmed.
  function SortAll(added: seq<Entry>): seq<Entry> {
    if added == [] then []
    else Insert(SortAll(added[..|added| - 1]), added[|added| - 1])
  }

  // ZADD followed by the trim, for each entry in turn.
  ghost function AddAll(added: seq<Entry>, k: nat): ZSet {
    if added == [] then []
    else
      var last := added[|added| - 1];
      ZTrim(ZAdd(AddAll(added[..|added| - 1], k), last.score, last.member), k)
  }

  lemma SnocDistinct(rest: seq<Entry>, last: Entry)
    requires Distinct(rest + [last])
    ensures Distinct(rest)
    ensures forall e :: e in rest ==> e.member != last.member
  {
    var all := rest + [last];
    assert all[|rest|] == last;
    forall i, j | 0 <= i < j < |rest| ensures rest[i].member != rest[j].member {
      assert all[i] == rest[i] && all[j] == rest[j];
    }
    forall e | e in rest ensures e.member != last.member {
      var i :| 0 <= i < |rest| && rest[i] == e;
      assert all[i] == e;
    }
  }

  lemma {:induction false} SortAllFacts(added: seq<Entry>)
    requires Distinct(added)
    ensures IsZSet(SortAll(added))
    ensures forall e :: e in SortAll(added) <==> e in added
    ensures |SortAll(added)| == |added|
  {
    if added != [] {
      var rest, last := added[..|added| - 1], added[|added| - 1];
      assert added == rest + [last];
      SnocDistinct(rest, last);
      SortAllFacts(rest);
      InsertFacts(SortAll(rest), last);
      InsertLength(SortAll(rest), last);
    }
  }

  lemma {:induction false} WithoutAbsent(z: seq<Entry>, member: string)
    requires forall e :: e in z ==> e.member != member
    ensures Without(z, member) == z
  {
    if z != [] {
      assert z == [z[0]] + z[1..];
      WithoutAbsent(z[1..], member);
    }
  }

  lemma AddToTop(z: ZSet, e: Entry, k: nat)
    requires forall x :: x in z ==> x.member != e.member
    requires IsZSet(Top(z, k))
    ensures ZTrim(ZAdd(Top(z, k), e.score, e.member), k) == Top(Insert(z, e), k)
  {
    assert forall x :: x in Top(z, k) ==> x in z;
    WithoutAbsent(Top(z, k), e.member);
    TopOfInsert(z, e, k);
  }

  // For distinct members in any order, trimming after every addition leaves
  // exactly the k highest of everything ever added.
  lemma {:induction false} StreamingTop(added: seq<Entry>, k: nat)
    requires Distinct(added)
    ensures AddAll(added, k) == Top(SortAll(added), k)
  {
    if added != [] {
      var rest, last := added[..|added| - 1], added[|added| - 1];
      assert added == rest + [last];
      SnocDistinct(rest, last);
      StreamingTop(rest, k);
      SortAllFacts(rest);
      AddToTop(SortAll(rest), last, k);
    }
  }

  // The entries of `all` that rank above e.
  ghost function Above(all: seq<Entry>, e: Entry): set<Entry> {
    set x | x in all && Less(e, x)
  }

  lemma {:induction false} AbovePosition(z: seq<Entry>, i: nat)
    requires IsZSet(z) && i < |z|
    ensures |Above(z, z[i])| == |z| - i - 1
  {
    forall x | x in z ensures Less(z[i], x) <==> x in z[i + 1..] {
      var j :| 0 <= j < |z| && z[j] == x;
      LessTotal(z[i], z[j]);
      if i < j { assert z[i + 1..][j - i - 1] == x; }
    }
    assert Above(z, z[i]) == Members(z[i + 1..]);
    DistinctSize(z[i + 1..]);
  }

  ghost function Members(z: seq<Entry>): set<Entry> {
    set x | x in z
  }

  lemma {:induction false} DistinctSize(z: seq<Entry>)
    requires Distinct(z)
    ensures |Members(z)| == |z|
  {
    if z != [] {
      assert z == [z[0]] + z[1..];
      DistinctSize(z[1..]);
      assert Members(z) == {z[0]} + Members(z[1..]);
    }
  }

  // Streaming top-k against the definition of rank: an added entry survives if
  // and only if fewer than k of all the added entries rank above it.
  lemma StreamingKeepsByRank(added: seq<Entry>, k: nat, e: Entry)
    requires Distinct(added)
    ensures e in AddAll(added, k) <==> e in added && |Above(added, e)| < k
  {
    StreamingTop(added, k);
    SortAllFacts(added);
    var z := SortAll(added);
    assert Above(added, e) == Above(z, e);
    if e in z {
      var i :| 0 <= i < |z| && z[i] == e;
      AbovePosition(z, i);
      TopByPosition(z, i, k);
    }
  }

  lemma TopByPosition(z: ZSet, i: nat, k: nat)
    requires i < |z|
    ensures z[i] in Top(z, k) <==> |z| - i - 1 < k
  {
    var t := Top(z, k);
    if |z| > k {
      if |z| - k <= i {
        assert t[i - (|z| - k)] == z[i];
      } else {
        forall j | 0 <= j < |t| ensures t[j] != z[i] {
          LessTotal(z[i], z[i]);
          assert t[j] == z[|z| - k + j];
        }
      }
    }
  }
}
