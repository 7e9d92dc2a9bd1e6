/** The dashboard's top users: license counts per user and a selection sort that stops
    after ten positions. */
module UsageAnalytics {

  datatype License = License(userId: int, revoked: bool, expiresAt: int)

  datatype User = User(id: int, username: string, email: string)

  datatype TopUserStat = TopUserStat(userId: int, username: string, email: string, licenseCount: nat, activeCount: nat)

  const TOP := 10

  predicate Current(l: License, now: int) {
    !l.revoked && l.expiresAt > now
  }

  function CountOf(licenses: seq<License>, userId: int): nat {
    if licenses == [] then 0
    else CountOf(licenses[..|licenses| - 1], userId) + (if licenses[|licenses| - 1].userId == userId then 1 else 0)
  }

  function CurrentOf(licenses: seq<License>, userId: int, now: int): nat {
    if licenses == [] then 0
    else
      var l := licenses[|licenses| - 1];
      CurrentOf(licenses[..|licenses| - 1], userId, now) + (if l.userId == userId && Current(l, now) then 1 else 0)
  }

  lemma {:induction false} CurrentAtMostAll(licenses: seq<License>, userId: int, now: int)
    ensures CurrentOf(licenses, userId, now) <= CountOf(licenses, userId)
    decreases |licenses|
  {
    if licenses != [] {
      CurrentAtMostAll(licenses[..|licenses| - 1], userId, now);
    }
  }

  /** A revocation takes a license from the current ones of its owner, if it was one of
      them, and changes no other number. */
  lemma {:induction false} RevokingCounts(licenses: seq<License>, i: nat, userId: int, now: int)
    requires i < |licenses|
    ensures var l := licenses[i];
      var after := licenses[i := l.(revoked := true)];
      && CountOf(after, userId) == CountOf(licenses, userId)
      && CurrentOf(after, userId, now) ==
           CurrentOf(licenses, userId, now) - (if l.userId == userId && !l.revoked && now < l.expiresAt then 1 else 0)
    decreases |licenses|
  {
    var n := |licenses| - 1;
    var after := licenses[i := licenses[i].(revoked := true)];
    if i < n {
      assert after[..n] == licenses[..n][i := licenses[i].(revoked := true)];
      RevokingCounts(licenses[..n], i, userId, now);
    } else {
      assert after[..n] == licenses[..n];
    }
  }

  /** A user with all and with the current licenses counted. */
  ghost function StatOf(u: User, licenses: seq<License>, now: int): TopUserStat {
    TopUserStat(u.id, u.username, u.email, CountOf(licenses, u.id), CurrentOf(licenses, u.id, now))
  }

  /** The users with at least one license, in the order of the user list. */
  function Candidates(users: seq<User>, licenses: seq<License>, now: int): seq<TopUserStat> {
    if users == [] then []
    else
      var u := users[|users| - 1];
      Candidates(users[..|users| - 1], licenses, now) +
      (if CountOf(licenses, u.id) > 0
       then [TopUserStat(u.id, u.username, u.email, CountOf(licenses, u.id), CurrentOf(licenses, u.id, now))] else [])
  }

  lemma {:induction false} CandidatesSound(users: seq<User>, licenses: seq<License>, now: int, x: TopUserStat)
    requires x in Candidates(users, licenses, now)
    ensures x.activeCount <= x.licenseCount && x.licenseCount > 0
    ensures exists u :: u in users && x == StatOf(u, licenses, now)
    decreases |users|
  {
    var n := |users| - 1;
    var u := users[n];
    if x in Candidates(users[..n], licenses, now) {
      CandidatesSound(users[..n], licenses, now, x);
    } else {
      CurrentAtMostAll(licenses, u.id, now);
      assert u in users && x == StatOf(u, licenses, now);
    }
  }

  /** Nobody with a license is missing. */
  lemma {:induction false} CandidatesComplete(users: seq<User>, licenses: seq<License>, now: int, u: User)
    requires u in users && CountOf(licenses, u.id) > 0
    ensures StatOf(u, licenses, now) in Candidates(users, licenses, now)
    decreases |users|
  {
    var n := |users| - 1;
    if u != users[n] {
      CandidatesComplete(users[..n], licenses, now, u);
    }
  }

  method CountLicenses(licenses: seq<License>, now: int) returns (counts: map<int, nat>, active: map<int, nat>)
    ensures forall u :: u in counts <==> CountOf(licenses, u) > 0
    ensures forall u :: u in counts ==> counts[u] == CountOf(licenses, u)
    ensures forall u :: (if u in active then active[u] else 0) == CurrentOf(licenses, u, now)
  {
    counts, active := map[], map[];
    for i := 0 to |licenses|
      invariant forall u :: u in counts <==> CountOf(licenses[..i], u) > 0
      invariant forall u :: u in counts ==> counts[u] == CountOf(licenses[..i], u)
      invariant forall u :: (if u in active then active[u] else 0) == CurrentOf(licenses[..i], u, now)
    {
      var l := licenses[i];
      assert licenses[..i + 1][..i] == licenses[..i];
      counts := counts[l.userId := (if l.userId in counts then counts[l.userId] else 0) + 1];
      if !l.revoked && l.expiresAt > now {
        active := active[l.userId := (if l.userId in active then active[l.userId] else 0) + 1];
      }
    }
    assert licenses[..|licenses|] == licenses;
  }

  method BuildTopUsers(users: seq<User>, licenses: seq<License>, now: int) returns (r: seq<TopUserStat>)
    ensures r == Candidates(users, licenses, now)
  {
    var counts, active := CountLicenses(licenses, now);
    r := [];
    for i := 0 to |users|
      invariant r == Candidates(users[..i], licenses, now)
    {
      var user := users[i];
      assert users[..i + 1][..i] == users[..i];
      if user.id in counts && counts[user.id] > 0 {
        r := r + [TopUserStat(user.id, user.username, user.email, counts[user.id],
                              if user.id in active then active[user.id] else 0)];
      }
    }
    assert users[..|users|] == users;
  }

  // ---------- the truncated sort ----------

  method Swap(a: array<TopUserStat>, i: nat, j: nat)
    requires i < j < a.Length
    modifies a
    ensures a[..] == old(a[..])[i := old(a[j])][j := old(a[i])]
    ensures multiset(a[..]) == multiset(old(a[..]))
  {
    a[i], a[j] := a[j], a[i];
  }

  /** The first k are in descending order and none is below anything after them. */
  ghost predicate TopSorted(s: seq<TopUserStat>, k: nat) {
    k <= |s| && forall p, q :: 0 <= p < k && p < q < |s| ==> s[p].licenseCount >= s[q].licenseCount
  }

  /** A swap beyond the first i leaves them on top. */
  lemma SwapKeepsTop(s: seq<TopUserStat>, i: nat, j: nat)
    requires i < j < |s| && TopSorted(s, i)
    ensures TopSorted(s[i := s[j]][j := s[i]], i)
  {
  }

  /** One turn of the outer loop: the largest of the rest comes to position i. */
  method BringUp(a: array<TopUserStat>, i: nat)
    requires i < a.Length && TopSorted(a[..], i)
    modifies a
    ensures multiset(a[..]) == multiset(old(a[..]))
    ensures TopSorted(a[..], i + 1)
  {
    var j := i + 1;
    while j < a.Length
      invariant i + 1 <= j <= a.Length
      invariant multiset(a[..]) == multiset(old(a[..]))
      invariant TopSorted(a[..], i)
      invariant forall q :: i < q < j ==> a[i].licenseCount >= a[q].licenseCount
    {
      if a[j].licenseCount > a[i].licenseCount {
        SwapKeepsTop(a[..], i, j);
        Swap(a, i, j);
      }
      j := j + 1;
    }
  }

  method SelectTop(a: array<TopUserStat>)
    modifies a
    ensures multiset(a[..]) == multiset(old(a[..]))
    ensures TopSorted(a[..], if a.Length < TOP then a.Length else TOP)
  {
    var i := 0;
    while i < a.Length - 1 && i < TOP
      invariant 0 <= i <= TOP && (i <= a.Length - 1 || (i == 0 && a.Length == 0))
      invariant multiset(a[..]) == multiset(old(a[..])) && TopSorted(a[..], i)
    {
      BringUp(a, i);
      i := i + 1;
    }
  }

  /** `r` and the dropped users make up `all`, `r` is in descending order, and nobody
      dropped has more licenses than anybody kept. */
  ghost predicate TopTen(all: seq<TopUserStat>, r: seq<TopUserStat>, dropped: seq<TopUserStat>) {
    && multiset(r) + multiset(dropped) == multiset(all)
    && |r| == (if |all| < TOP then |all| else TOP)
    && (forall p, q :: 0 <= p < q < |r| ==> r[p].licenseCount >= r[q].licenseCount)
    && (forall p, q :: 0 <= p < |r| && 0 <= q < |dropped| ==> r[p].licenseCount >= dropped[q].licenseCount)
  }

  method TopTenOf(all: seq<TopUserStat>) returns (r: seq<TopUserStat>)
    ensures exists dropped :: TopTen(all, r, dropped)
  {
    var a := new TopUserStat[|all|](i requires 0 <= i < |all| => all[i]);
    assert a[..] == all;
    SelectTop(a);
    var n := if a.Length > TOP then TOP else a.Length;
    r := a[..n];
    assert a[..] == r + a[n..];
    assert TopTen(all, r, a[n..]);
  }

  lemma TopTenMember(all: seq<TopUserStat>, r: seq<TopUserStat>, dropped: seq<TopUserStat>, x: TopUserStat)
    requires TopTen(all, r, dropped) && x in r
    ensures x in all
  {
    assert x in multiset(r) + multiset(dropped);
    assert x in multiset(all);
  }

  /** Who is not shown has no more licenses than anybody shown, and ten are. */
  lemma NotInTopTen(all: seq<TopUserStat>, r: seq<TopUserStat>, dropped: seq<TopUserStat>, x: TopUserStat)
    requires TopTen(all, r, dropped) && x in all
    ensures x in r || (|r| == TOP && forall y :: y in r ==> y.licenseCount >= x.licenseCount)
  {
    assert x in multiset(all);
    assert x in multiset(r) || x in multiset(dropped);
    assert |multiset(all)| == |multiset(r)| + |multiset(dropped)|;
  }

  /** The TopUsers of GetUsageAnalytics. */
  method TopUsers(users: seq<User>, licenses: seq<License>, now: int) returns (r: seq<TopUserStat>)
    ensures exists dropped :: TopTen(Candidates(users, licenses, now), r, dropped)
    ensures forall x :: x in r ==>
      x.activeCount <= x.licenseCount && x.licenseCount > 0 && exists u :: u in users && x == StatOf(u, licenses, now)
    ensures forall u :: u in users && CountOf(licenses, u.id) > 0 ==>
      StatOf(u, licenses, now) in r || (|r| == TOP && forall x :: x in r ==> x.licenseCount >= CountOf(licenses, u.id))
  {
    var all := BuildTopUsers(users, licenses, now);
    r := TopTenOf(all);
    ghost var dropped :| TopTen(all, r, dropped);
    forall x | x in r
      ensures x.activeCount <= x.licenseCount && x.licenseCount > 0
      ensures exists u :: u in users && x == StatOf(u, licenses, now)
    {
      TopTenMember(all, r, dropped, x);
      CandidatesSound(users, licenses, now, x);
    }
    forall u | u in users && CountOf(licenses, u.id) > 0
      ensures StatOf(u, licenses, now) in r ||
        (|r| == TOP && forall x :: x in r ==> x.licenseCount >= CountOf(licenses, u.id))
    {
      CandidatesComplete(users, licenses, now, u);
      NotInTopTen(all, r, dropped, StatOf(u, licenses, now));
    }
  }

  // ---------- the counts of a top ten do not depend on how ties fell ----------

  function AboveCount(s: seq<TopUserStat>, c: int): nat {
    if s == [] then 0
    else AboveCount(s[..|s| - 1], c) + (if s[|s| - 1].licenseCount > c then 1 else 0)
  }

  lemma {:induction false} AboveConcat(s: seq<TopUserStat>, t: seq<TopUserStat>, c: int)
    ensures AboveCount(s + t, c) == AboveCount(s, c) + AboveCount(t, c)
    decreases |t|
  {
    if t == [] {
      assert s + t == s;
    } else {
      assert (s + t)[..|s + t| - 1] == s + t[..|t| - 1];
      AboveConcat(s, t[..|t| - 1], c);
    }
  }

  function Without(t: seq<TopUserStat>, i: nat): seq<TopUserStat>
    requires i < |t|
  {
    t[..i] + t[i + 1..]
  }

  lemma AboveWithout(t: seq<TopUserStat>, i: nat, c: int)
    requires i < |t|
    ensures AboveCount(t, c) == AboveCount(Without(t, i), c) + (if t[i].licenseCount > c then 1 else 0)
    ensures multiset(Without(t, i)) == multiset(t) - multiset{t[i]}
  {
    var x := [t[i]];
    assert t == t[..i] + (x + t[i + 1..]);
    AboveConcat(t[..i], x + t[i + 1..], c);
    AboveConcat(x, t[i + 1..], c);
    AboveConcat(t[..i], t[i + 1..], c);
    assert x[..0] == [];
    assert AboveCount(x, c) == (if t[i].licenseCount > c then 1 else 0);
  }

  lemma {:induction false} AboveOfPermutation(s: seq<TopUserStat>, t: seq<TopUserStat>, c: int)
    requires multiset(s) == multiset(t)
    ensures AboveCount(s, c) == AboveCount(t, c)
    decreases |s|
  {
    if s == [] {
      assert |multiset(t)| == 0;
    } else {
      var n := |s| - 1;
      assert s[n] in multiset(t);
      var i :| 0 <= i < |t| && t[i] == s[n];
      AboveWithout(t, i, c);
      assert Without(s, n) == s[..n];
      AboveWithout(s, n, c);
      AboveOfPermutation(s[..n], Without(t, i), c);
    }
  }

  lemma {:induction false} AboveLength(s: seq<TopUserStat>, c: int)
    ensures AboveCount(s, c) <= |s|
    decreases |s|
  {
    if s != [] { AboveLength(s[..|s| - 1], c); }
  }

  lemma {:induction false} AboveAll(s: seq<TopUserStat>, c: int)
    requires forall i :: 0 <= i < |s| ==> s[i].licenseCount > c
    ensures AboveCount(s, c) == |s|
    decreases |s|
  {
    if s != [] { AboveAll(s[..|s| - 1], c); }
  }

  lemma {:induction false} AboveNone(s: seq<TopUserStat>, c: int)
    requires forall i :: 0 <= i < |s| ==> s[i].licenseCount <= c
    ensures AboveCount(s, c) == 0
    decreases |s|
  {
    if s != [] { AboveNone(s[..|s| - 1], c); }
  }

  /** Nobody from position k on is above c: at most k are. */
  lemma AboveAtMost(r: seq<TopUserStat>, d: seq<TopUserStat>, k: nat, c: int)
    requires k <= |r|
    requires forall i :: k <= i < |r| ==> r[i].licenseCount <= c
    requires forall i :: 0 <= i < |d| ==> d[i].licenseCount <= c
    ensures AboveCount(r + d, c) <= k
  {
    var rest := r[k..] + d;
    assert r + d == r[..k] + rest;
    AboveConcat(r[..k], rest, c);
    AboveLength(r[..k], c);
    forall i | 0 <= i < |rest|
      ensures rest[i].licenseCount <= c
    {
      assert rest[i] == if i < |r| - k then r[k + i] else d[i - (|r| - k)];
    }
    AboveNone(rest, c);
  }

  /** The first k are above c: at least k are. */
  lemma AboveAtLeast(r: seq<TopUserStat>, d: seq<TopUserStat>, k: nat, c: int)
    requires k <= |r| && forall i :: 0 <= i < k ==> r[i].licenseCount > c
    ensures AboveCount(r + d, c) >= k
  {
    assert r + d == r[..k] + (r[k..] + d);
    AboveConcat(r[..k], r[k..] + d, c);
    AboveAll(r[..k], c);
  }

  lemma RankBound(all: seq<TopUserStat>, r1: seq<TopUserStat>, d1: seq<TopUserStat>,
                  r2: seq<TopUserStat>, d2: seq<TopUserStat>, k: nat)
    requires TopTen(all, r1, d1) && TopTen(all, r2, d2) && k < |r1|
    ensures r1[k].licenseCount <= r2[k].licenseCount
  {
    var c := r2[k].licenseCount;
    assert multiset(r1 + d1) == multiset(r2 + d2);
    AboveOfPermutation(r1 + d1, r2 + d2, c);
    AboveAtMost(r2, d2, k, c);
    if r1[k].licenseCount > c {
      AboveAtLeast(r1, d1, k + 1, c);
    }
  }

  /** Any two top tens of the same users show the same license counts, in particular
      the truncated sort and a full one. */
  lemma TopTenCountsUnique(all: seq<TopUserStat>, r1: seq<TopUserStat>, d1: seq<TopUserStat>,
                           r2: seq<TopUserStat>, d2: seq<TopUserStat>, k: nat)
    requires TopTen(all, r1, d1) && TopTen(all, r2, d2) && k < |r1|
    ensures r1[k].licenseCount == r2[k].licenseCount
  {
    RankBound(all, r1, d1, r2, d2, k);
    RankBound(all, r2, d2, r1, d1, k);
  }
}
