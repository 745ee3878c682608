/** The contributor leaderboard (`query_top_contributors`): a bounded insertion list over a map, whatever
    the map's iteration order. */
module Leaderboard {
  import opened Common
  import opened Vrf
  import opened CircleTypes
  import opened CircleInvariant
  import opened CircleProofs

  datatype Standing = Standing(total: int128, since: uint64)

  datatype Entry = Entry(address: Address, total: int128, since: uint64)

  type Standings = map<Address, Standing>

  // ----- the standings -----

  function MemberStandings(members: seq<Member>): Standings {
    if members == [] then map[]
    else
      var m := members[|members| - 1];
      MemberStandings(members[..|members| - 1])[m.address := Standing(m.totalContributions, m.joinedAt)]
  }

  /** A contribution moves the earliest time back; its amount counts only when there are no members. */
  function WithLogged(all: Standings, c: Contribution, counted: bool): Standings {
    var known := if c.member in all then all[c.member] else Standing(0, c.timestamp);
    all[c.member := Standing(if counted then SatAddI128(known.total, c.amount) else known.total,
                             if known.since == 0 || c.timestamp < known.since then c.timestamp else known.since)]
  }

  function StandingsOf(members: seq<Member>, log: seq<Contribution>): Standings {
    if log == [] then MemberStandings(members)
    else WithLogged(StandingsOf(members, log[..|log| - 1]), log[|log| - 1], members == [])
  }

  method CollectStandings(members: seq<Member>, log: seq<Contribution>) returns (all: Standings)
    ensures all == StandingsOf(members, log)
  {
    all := map[];
    for i := 0 to |members|
      invariant all == MemberStandings(members[..i])
    {
      assert members[..i + 1][..i] == members[..i];
      all := all[members[i].address := Standing(members[i].totalContributions, members[i].joinedAt)];
    }
    assert members[..|members|] == members;
    for i := 0 to |log|
      invariant all == StandingsOf(members, log[..i])
    {
      assert log[..i + 1][..i] == log[..i];
      all := WithLogged(all, log[i], |members| == 0);
    }
    assert log[..|log|] == log;
  }

  // ----- the order -----

  /** Larger total first, then the earlier time, then the smaller address. */
  predicate Beats(a: Entry, b: Entry) {
    if a.total != b.total then a.total > b.total
    else if a.since != b.since then a.since < b.since
    else a.address < b.address
  }

  predicate Ranked(list: seq<Entry>) {
    forall i, j :: 0 <= i < j < |list| ==> Beats(list[i], list[j])
  }

  function EntryOf(all: Standings, a: Address): Entry
    requires a in all
  {
    Entry(a, all[a].total, all[a].since)
  }

  ghost predicate Lists(list: seq<Entry>, a: Address) {
    exists i :: 0 <= i < |list| && list[i].address == a
  }

  /** The first `limit` entries in the order: as many as there can be, each as the standings say, in
      order, and ahead of everyone left out. */
  ghost predicate IsTop(list: seq<Entry>, all: Standings, limit: nat) {
    && |list| == Min(limit, |all|)
    && (forall i :: 0 <= i < |list| ==> list[i].address in all && list[i] == EntryOf(all, list[i].address))
    && Ranked(list)
    && (forall a :: a in all && !Lists(list, a) ==> forall i :: 0 <= i < |list| ==> Beats(list[i], EntryOf(all, a)))
  }

  lemma {:induction false} ListedAddresses(list: seq<Entry>) returns (s: set<Address>)
    requires forall i, j :: 0 <= i < j < |list| ==> list[i].address != list[j].address
    ensures |s| == |list| && forall a :: a in s <==> Lists(list, a)
  {
    if list == [] {
      s := {};
    } else {
      var n := |list| - 1;
      var before := ListedAddresses(list[..n]);
      s := before + {list[n].address};
      forall a
        ensures Lists(list, a) <==> Lists(list[..n], a) || a == list[n].address
      {
        if i :| 0 <= i < n && list[i].address == a {
          assert list[..n][i].address == a;
        }
      }
      assert list[n].address !in before;
    }
  }

  lemma EntriesAreDistinct(list: seq<Entry>, all: Standings, limit: nat)
    requires IsTop(list, all, limit)
    ensures forall i, j :: 0 <= i < j < |list| ==> list[i].address != list[j].address
  {
  }

  /** Somebody is left out only when the list is full. */
  lemma LeftOutMeansFull(list: seq<Entry>, all: Standings, limit: nat, a: Address)
    requires IsTop(list, all, limit) && a in all && !Lists(list, a)
    ensures |list| == limit
  {
    EntriesAreDistinct(list, all, limit);
    var listed := ListedAddresses(list);
    assert listed < all.Keys;
    ProperSubsetIsSmaller(listed, all.Keys);
  }

  lemma ProperSubsetIsSmaller(a: set<Address>, b: set<Address>)
    requires a < b
    ensures |a| < |b|
  {
    var x :| x in b && x !in a;
    assert a <= b - {x};
    SubsetIsNoLarger(a, b - {x});
  }

  lemma {:induction false} SubsetIsNoLarger(a: set<Address>, b: set<Address>)
    requires a <= b
    ensures |a| <= |b|
    decreases |a|
  {
    if a != {} {
      var x :| x in a;
      SubsetIsNoLarger(a - {x}, b - {x});
    }
  }

  // ----- the insertion -----

  /** The three lists kept side by side hold the entries of `list`. */
  ghost predicate Parallel(addresses: seq<Address>, totals: seq<int128>, times: seq<uint64>, list: seq<Entry>) {
    && |addresses| == |totals| == |times| == |list|
    && forall i :: 0 <= i < |list| ==> list[i] == Entry(addresses[i], totals[i], times[i])
  }

  /** The first list position the entry beats, found by a linear search. */
  method InsertPosition(e: Entry, addresses: seq<Address>, totals: seq<int128>, times: seq<uint64>, ghost list: seq<Entry>)
    returns (pos: nat)
    requires Parallel(addresses, totals, times, list)
    ensures pos <= |list| && (forall i :: 0 <= i < pos ==> !Beats(e, list[i])) && (pos < |list| ==> Beats(e, list[pos]))
  {
    pos := 0;
    while pos < |totals|
      invariant pos <= |list| && forall i :: 0 <= i < pos ==> !Beats(e, list[i])
    {
      if Beats(e, Entry(addresses[pos], totals[pos], times[pos])) {
        return;
      }
      pos := pos + 1;
    }
  }

  function Inserted(list: seq<Entry>, e: Entry, pos: nat, limit: nat): seq<Entry>
    requires pos <= |list|
  {
    if pos >= limit then list
    else
      var longer := list[..pos] + [e] + list[pos..];
      if |longer| > limit then longer[..|longer| - 1] else longer
  }

  lemma InsertedIsRanked(list: seq<Entry>, e: Entry, pos: nat)
    requires Ranked(list) && pos <= |list| && !Lists(list, e.address)
    requires forall i :: 0 <= i < pos ==> !Beats(e, list[i])
    requires pos < |list| ==> Beats(e, list[pos])
    ensures Ranked(list[..pos] + [e] + list[pos..])
    ensures forall i :: 0 <= i < pos ==> Beats(list[i], e)
    ensures forall i :: pos <= i < |list| ==> Beats(e, list[i])
  {
    forall i | 0 <= i < pos
      ensures Beats(list[i], e)
    {
      assert list[i].address != e.address;
    }
  }

  /** Inserting the next map entry keeps the list the top of what has been seen. */
  lemma InsertingKeepsTop(list: seq<Entry>, seen: Standings, a: Address, standing: Standing, pos: nat, limit: nat)
    requires IsTop(list, seen, limit) && a !in seen && pos <= |list|
    requires var e := Entry(a, standing.total, standing.since);
             (forall i :: 0 <= i < pos ==> !Beats(e, list[i])) && (pos < |list| ==> Beats(e, list[pos]))
    ensures IsTop(Inserted(list, Entry(a, standing.total, standing.since), pos, limit), seen[a := standing], limit)
  {
    var e, all := Entry(a, standing.total, standing.since), seen[a := standing];
    assert !Lists(list, a);
    InsertedIsRanked(list, e, pos);
    if pos >= limit {
      hide Ranked, Beats, Lists;
      TopWhenFull(list, seen, a, standing, limit);
    } else {
      var list' := Inserted(list, e, pos, limit);
      InsertedEntries(list, seen, e, pos, limit);
      PrefixIsRanked(list[..pos] + [e] + list[pos..], |list'|);
      forall b | b in all && !Lists(list', b)
        ensures forall i :: 0 <= i < |list'| ==> Beats(list'[i], EntryOf(all, b))
      {
        hide Beats, Ranked, Lists;
        LeftOutIsBeaten(list, seen, e, pos, limit, b);
      }
      hide Beats, Ranked, Lists, Inserted;
    }
  }

  lemma InsertedEntries(list: seq<Entry>, seen: Standings, e: Entry, pos: nat, limit: nat)
    requires IsTop(list, seen, limit) && e.address !in seen && pos <= |list| && pos < limit
    ensures var list', all := Inserted(list, e, pos, limit), seen[e.address := Standing(e.total, e.since)];
            && list' == (list[..pos] + [e] + list[pos..])[..|list'|]
            && |list'| == Min(limit, |all|)
            && forall i :: 0 <= i < |list'| ==> list'[i].address in all && list'[i] == EntryOf(all, list'[i].address)
  {
    hide Beats, Ranked, Lists;
    var longer, list', all := list[..pos] + [e] + list[pos..], Inserted(list, e, pos, limit), seen[e.address := Standing(e.total, e.since)];
    assert |all| == |seen| + 1;
    forall i | 0 <= i < |list'|
      ensures list'[i].address in all && list'[i] == EntryOf(all, list'[i].address)
    {
      assert list'[i] == if i < pos then list[i] else if i == pos then e else list[i - 1];
    }
  }

  lemma PrefixIsRanked(list: seq<Entry>, n: nat)
    requires Ranked(list) && n <= |list|
    ensures Ranked(list[..n])
  {
  }

  lemma TopWhenFull(list: seq<Entry>, seen: Standings, a: Address, standing: Standing, limit: nat)
    requires IsTop(list, seen, limit) && a !in seen && |list| == limit
    requires forall i :: 0 <= i < |list| ==> Beats(list[i], Entry(a, standing.total, standing.since))
    ensures IsTop(list, seen[a := standing], limit)
  {
    assert |seen[a := standing]| == |seen| + 1;
  }

  lemma ListsAt(list: seq<Entry>, i: nat)
    requires i < |list|
    ensures Lists(list, list[i].address)
  {
  }

  lemma NewcomerIsListed(list: seq<Entry>, e: Entry, pos: nat, limit: nat)
    requires pos <= |list| <= limit && pos < limit
    ensures Lists(Inserted(list, e, pos, limit), e.address)
  {
    assert (list[..pos] + [e] + list[pos..])[pos] == e;
    ListsAt(Inserted(list, e, pos, limit), pos);
  }

  /** An entry that was listed before and is no more was the last one, and is pushed out. */
  lemma PushedOut(list: seq<Entry>, e: Entry, pos: nat, limit: nat, k: nat)
    requires pos <= |list| <= limit && pos < limit && k < |list| && !Lists(Inserted(list, e, pos, limit), list[k].address)
    ensures |list| == limit && k == limit - 1
  {
    var longer := list[..pos] + [e] + list[pos..];
    var at := if k < pos then k else k + 1;
    assert longer[at] == list[k];
    if at < |Inserted(list, e, pos, limit)| {
      ListsAt(Inserted(list, e, pos, limit), at);
    }
  }

  lemma LeftOutIsBeaten(list: seq<Entry>, seen: Standings, e: Entry, pos: nat, limit: nat, b: Address)
    requires IsTop(list, seen, limit) && e.address !in seen && pos <= |list| && pos < limit
    requires Ranked(list[..pos] + [e] + list[pos..])
    requires forall i :: 0 <= i < pos ==> Beats(list[i], e)
    requires forall i :: pos <= i < |list| ==> Beats(e, list[i])
    requires b in seen[e.address := Standing(e.total, e.since)] && !Lists(Inserted(list, e, pos, limit), b)
    ensures forall i :: 0 <= i < |Inserted(list, e, pos, limit)| ==>
              Beats(Inserted(list, e, pos, limit)[i], EntryOf(seen[e.address := Standing(e.total, e.since)], b))
  {
    NewcomerIsListed(list, e, pos, limit);
    var longer := list[..pos] + [e] + list[pos..];
    if Lists(list, b) {
      var k :| 0 <= k < |list| && list[k].address == b;
      PushedOut(list, e, pos, limit, k);
      assert longer[|list|] == list[k];
    } else {
      LeftOutMeansFull(list, seen, limit, b);
      assert Beats(list[pos], EntryOf(seen, b));
    }
  }

  // ----- the query -----

  method Insert(e: Entry, pos: nat, limit: nat, addresses: seq<Address>, totals: seq<int128>, times: seq<uint64>, ghost list: seq<Entry>)
    returns (addresses': seq<Address>, totals': seq<int128>, times': seq<uint64>)
    requires Parallel(addresses, totals, times, list) && pos <= |list|
    ensures Parallel(addresses', totals', times', Inserted(list, e, pos, limit))
  {
    addresses', totals', times' := addresses, totals, times;
    if pos < limit {
      addresses' := addresses[..pos] + [e.address] + addresses[pos..];
      totals' := totals[..pos] + [e.total] + totals[pos..];
      times' := times[..pos] + [e.since] + times[pos..];
      if |totals'| > limit {
        addresses', totals', times' := addresses'[..|addresses'| - 1], totals'[..|totals'| - 1], times'[..|times'| - 1];
      }
    }
  }

  /** The map's entries, taken in any order, go through the bounded insertion list. */
  method RankStandings(all: Standings, limit: nat) returns (addresses: seq<Address>, totals: seq<int128>, times: seq<uint64>)
    ensures exists list :: IsTop(list, all, limit) && Parallel(addresses, totals, times, list)
  {
    addresses, totals, times := [], [], [];
    ghost var list: seq<Entry> := [];
    var left := all.Keys;
    ghost var seen: Standings := map[];
    while left != {}
      invariant left <= all.Keys && forall x :: x in seen <==> x in all && x !in left
      invariant forall x :: x in seen ==> seen[x] == all[x]
      invariant Parallel(addresses, totals, times, list)
      invariant IsTop(list, seen, limit)
      decreases left
    {
      hide IsTop, Parallel, Inserted;
      var a :| a in left;
      left := left - {a};
      var e := Entry(a, all[a].total, all[a].since);
      var pos := InsertPosition(e, addresses, totals, times, list);
      InsertingKeepsTop(list, seen, a, all[a], pos, limit);
      addresses, totals, times := Insert(e, pos, limit, addresses, totals, times, list);
      list := Inserted(list, e, pos, limit);
      seen := seen[a := all[a]];
    }
    assert seen == all;
  }

  method QueryTopContributors(members: seq<Member>, log: seq<Contribution>, n: uint32) returns (r: seq<(Address, int128)>)
    ensures exists list :: IsTop(list, StandingsOf(members, log), Min(n, MAX_LEADERBOARD_LIMIT)) && r == Shown(list)
  {
    var limit := if n > MAX_LEADERBOARD_LIMIT then MAX_LEADERBOARD_LIMIT else n;
    if limit == 0 {
      assert IsTop([], StandingsOf(members, log), 0) && Shown([]) == [];
      return [];
    }
    var all := CollectStandings(members, log);
    var addresses, totals, times := RankStandings(all, limit);
    ghost var list :| IsTop(list, all, limit) && Parallel(addresses, totals, times, list);
    hide IsTop;
    r := [];
    for i := 0 to |totals|
      invariant |r| == i && forall j :: 0 <= j < i ==> r[j] == (addresses[j], totals[j])
    {
      r := r + [(addresses[i], totals[i])];
    }
    assert r == Shown(list);
  }

  function Shown(list: seq<Entry>): seq<(Address, int128)> {
    seq(|list|, i requires 0 <= i < |list| => (list[i].address, list[i].total))
  }

  // ----- what the list is -----

  /** There is only one such list, so the order in which the map is walked does not matter. */
  lemma TopIsUnique(a: seq<Entry>, b: seq<Entry>, all: Standings, limit: nat)
    requires IsTop(a, all, limit) && IsTop(b, all, limit)
    ensures a == b
  {
    forall n | 0 <= n < |a|
      ensures a[n] == b[n]
    {
      TopAgreesAt(a, b, all, limit, n);
    }
  }

  lemma {:induction false} TopAgreesAt(a: seq<Entry>, b: seq<Entry>, all: Standings, limit: nat, n: nat)
    requires IsTop(a, all, limit) && IsTop(b, all, limit) && n < |a| == |b|
    ensures a[n] == b[n]
  {
    hide IsTop;
    forall i | 0 <= i < n
      ensures a[i] == b[i]
    {
      TopAgreesAt(a, b, all, limit, i);
    }
    NotBehind(a, b, all, limit, n);
    NotBehind(b, a, all, limit, n);
  }

  /** After a common prefix the first list's entry is the second's, or beats it. */
  lemma NotBehind(a: seq<Entry>, b: seq<Entry>, all: Standings, limit: nat, n: nat)
    requires IsTop(a, all, limit) && IsTop(b, all, limit) && n < |a| == |b|
    requires forall i :: 0 <= i < n ==> a[i] == b[i]
    ensures a[n] == b[n] || Beats(a[n], b[n])
  {
    var x := b[n].address;
    if Lists(a, x) {
      var i :| 0 <= i < |a| && a[i].address == x;
      assert a[i] == b[n];
      assert i >= n;
    }
  }

  /** A prefix of the full ranking is the top of that size: the query returns the first entries of the
      fully sorted standings. */
  lemma TopIsPrefixOfRanking(full: seq<Entry>, list: seq<Entry>, all: Standings, limit: nat)
    requires IsTop(full, all, |all|) && IsTop(list, all, limit)
    ensures list == full[..Min(limit, |all|)]
  {
    var k := Min(limit, |all|);
    var top := full[..k];
    forall a | a in all && !Lists(top, a)
      ensures forall i :: 0 <= i < |top| ==> Beats(top[i], EntryOf(all, a))
    {
      if !Lists(full, a) {
        LeftOutIsNobody(full, all, a);
      } else {
        var j :| 0 <= j < |full| && full[j].address == a;
        NotListedBefore(full, k, j);
      }
    }
    assert IsTop(top, all, limit);
    TopIsUnique(list, top, all, limit);
  }

  lemma NotListedBefore(full: seq<Entry>, k: nat, j: nat)
    requires k <= |full| && j < |full| && !Lists(full[..k], full[j].address)
    ensures j >= k
  {
    hide Lists;
    if j < k {
      ListsAt(full[..k], j);
    }
  }

  lemma LeftOutIsNobody(full: seq<Entry>, all: Standings, a: Address)
    requires IsTop(full, all, |all|) && a in all
    ensures Lists(full, a)
  {
    if !Lists(full, a) {
      EntriesAreDistinct(full, all, |all|);
      var listed := ListedAddresses(full);
      assert listed < all.Keys;
      ProperSubsetIsSmaller(listed, all.Keys);
    }
  }

  // ----- what it shows -----

  lemma {:induction false} SeatedStandingsAreZero(members: seq<Member>)
    requires forall i :: 0 <= i < |members| ==> members[i].totalContributions == 0
    ensures forall a :: a in MemberStandings(members) ==> MemberStandings(members)[a].total == 0
  {
    if members != [] {
      SeatedStandingsAreZero(members[..|members| - 1]);
    }
  }

  lemma {:induction false} LoggedStandingsAreZero(members: seq<Member>, log: seq<Contribution>)
    requires forall i :: 0 <= i < |members| ==> members[i].totalContributions == 0
    requires members == [] ==> log == []
    ensures forall a :: a in StandingsOf(members, log) ==> StandingsOf(members, log)[a].total == 0
  {
    if log == [] {
      SeatedStandingsAreZero(members);
    } else {
      LoggedStandingsAreZero(members, log[..|log| - 1]);
    }
  }

  lemma ContributorSits(s: Storage, i: nat)
    requires LogSound(s) && i < |s.contributions|
    ensures HasMember(s.members, s.contributions[i].member)
  {
  }

  /** In every reachable circle each standing's total is zero, whatever has been contributed: the board
      ranks by time and address only, not by contributions. */
  lemma BoardNeverShowsContributions(hash: Hash, s: Storage)
    requires Reachable(hash, s)
    ensures forall a :: a in StandingsOf(s.members, s.contributions) ==> StandingsOf(s.members, s.contributions)[a].total == 0
  {
    ReachableStatesAreSound(hash, s);
    hide MarksSound, VrfSound, BooksSound, BidsSound, CachesMatch;
    if s.contributions != [] {
      ContributorSits(s, 0);
    }
    LoggedStandingsAreZero(s.members, s.contributions);
  }
}
