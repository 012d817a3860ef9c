/** The home page's "newest six" selection. */
module HomeFeed {
  import opened CommunityRecord

  /** Ordered by `createdAt`, newest first (ties in any order). */
  predicate NewestFirst(cs: seq<Community>) {
    forall i, j :: 0 <= i < j < |cs| ==> cs[i].createdAt >= cs[j].createdAt
  }

  /** Prepending an entry no older than any in a newest-first list keeps it newest first. */
  lemma PrependNewest(x: Community, rest: seq<Community>)
    requires NewestFirst(rest)
    requires forall k :: 0 <= k < |rest| ==> rest[k].createdAt <= x.createdAt
    ensures NewestFirst([x] + rest)
  {
    var all := [x] + rest;
    forall i, j | 0 <= i < j < |all| ensures all[i].createdAt >= all[j].createdAt {
      assert all[j] == rest[j - 1];
      if i > 0 {
        assert all[i] == rest[i - 1];
      }
    }
  }

  /** Puts `c` into a newest-first list in front of the first older entry. */
  function InsertByDate(c: Community, s: seq<Community>): (r: seq<Community>)
    requires NewestFirst(s)
    ensures |r| == |s| + 1
    ensures NewestFirst(r)
    ensures forall k :: 0 <= k < |r| ==> r[k] == c || r[k] in s
    ensures multiset(r) == multiset(s) + multiset{c}
    decreases |s|
  {
    if s == [] then [c]
    else if c.createdAt >= s[0].createdAt then
      PrependNewest(c, s);
      [c] + s
    else
      var rest := InsertByDate(c, s[1..]);
      OlderThanHead(c, s, rest);
      PrependNewest(s[0], rest);
      assert s == [s[0]] + s[1..];
      [s[0]] + rest
  }

  /** What gets inserted after the head of `s` is no newer than that head. */
  lemma OlderThanHead(c: Community, s: seq<Community>, rest: seq<Community>)
    requires s != [] && NewestFirst(s) && c.createdAt < s[0].createdAt
    requires forall k :: 0 <= k < |rest| ==> rest[k] == c || rest[k] in s[1..]
    ensures forall k :: 0 <= k < |rest| ==> rest[k].createdAt <= s[0].createdAt
  {
    forall k | 0 <= k < |rest| ensures rest[k].createdAt <= s[0].createdAt {
      if rest[k] != c {
        var m :| 0 <= m < |s[1..]| && s[1..][m] == rest[k];
        assert s[m + 1] == rest[k];
      }
    }
  }

  /**
   * `sorted { $0.createdAt > $1.createdAt }`: a newest-first permutation.
   * The order among communities created at the same instant is not fixed
   * by the sort; this definition is one admissible choice.
   */
  function SortNewestFirst(cs: seq<Community>): (r: seq<Community>)
    ensures |r| == |cs|
    ensures NewestFirst(r)
    ensures multiset(r) == multiset(cs)
    decreases |cs|
  {
    if cs == [] then []
    else
      assert cs == [cs[0]] + cs[1..];
      InsertByDate(cs[0], SortNewestFirst(cs[1..]))
  }

  function Min(a: int, b: int): int {
    if a <= b then a else b
  }

  /** A prefix of a newest-first list is newest first and is drawn from the list. */
  lemma PrefixOfNewestFirst(s: seq<Community>, k: nat)
    requires NewestFirst(s) && k <= |s|
    ensures NewestFirst(s[..k])
    ensures multiset(s[..k]) <= multiset(s)
    ensures forall c :: c in s[..k] ==> c in multiset(s)
  {
    assert s == s[..k] + s[k..];
    assert multiset(s) == multiset(s[..k]) + multiset(s[k..]);
  }

  /** `popularCommunities`: the first six of the newest-first order. */
  function PopularCommunities(cs: seq<Community>): (r: seq<Community>)
    ensures |r| == Min(6, |cs|)
    ensures NewestFirst(r)
    ensures multiset(r) <= multiset(cs)
    ensures forall c :: c in r ==> c in cs
  {
    var sorted := SortNewestFirst(cs);
    PrefixOfNewestFirst(sorted, Min(6, |cs|));
    sorted[..Min(6, |cs|)]
  }

  /** In a newest-first list, everything after position `k` is no newer than anything before it. */
  lemma PrefixDominates(s: seq<Community>, k: nat)
    requires NewestFirst(s) && k <= |s|
    ensures forall c, d :: c in s[k..] && d in s[..k] ==> c.createdAt <= d.createdAt
  {
    forall c, d | c in s[k..] && d in s[..k] ensures c.createdAt <= d.createdAt {
      var i :| 0 <= i < k && s[..k][i] == d;
      var j :| 0 <= j < |s| - k && s[k..][j] == c;
      assert s[i] == d && s[k + j] == c;
    }
  }

  /** What a prefix leaves over is the matching suffix. */
  lemma PrefixSplit(s: seq<Community>, k: nat)
    requires k <= |s|
    ensures multiset(s) - multiset(s[..k]) == multiset(s[k..])
  {
    assert s == s[..k] + s[k..];
    assert multiset(s) == multiset(s[..k]) + multiset(s[k..]);
  }

  /** No community left out of the six is newer than one shown. */
  lemma PopularAreNewest(cs: seq<Community>)
    ensures var r := PopularCommunities(cs);
            forall c, d :: c in multiset(cs) - multiset(r) && d in r ==> c.createdAt <= d.createdAt
  {
    var sorted := SortNewestFirst(cs);
    var k := Min(6, |cs|);
    var r := sorted[..k];
    assert r == PopularCommunities(cs);
    PrefixSplit(sorted, k);
    PrefixDominates(sorted, k);
    forall c, d | c in multiset(cs) - multiset(r) && d in r
      ensures c.createdAt <= d.createdAt
    {
      assert c in multiset(sorted[k..]);
      assert c in sorted[k..];
    }
  }
}
