/**
 Follow suggestions end to end: `getSuggestions` of
 threads-be/src/modules/suggestions/suggestions.service.ts ranks the people followed by those the user
 follows and fills up with popular users; the hook threads-fe/src/hooks/useSuggestion.tsx then drops
 repeated ids. Neither half alone gives a ranking without repetitions.
 */
module Suggestions {
  import opened Collections

  type UserId = nat

  /** `getFollowingList` per existing user: the rows of one follower, unique by key. */
  type Graph = map<UserId, seq<UserId>>

  ghost predicate ValidGraph(g: Graph) {
    forall u :: u in g ==> NoRepeats(g[u]) && forall v :: v in g[u] ==> v in g
  }

  /** `mutualConnections` counts these: the users I follow who follow `x`. */
  function Mutuals(g: Graph, fs: seq<UserId>, x: UserId): set<UserId> {
    set f | f in fs && f in g && x in g[f]
  }

  predicate Allowed(me: UserId, following: seq<UserId>, x: UserId) {
    x != me && x !in following
  }

  // ---------------------------------------------------------------------------------------
  // The server's expressions
  // ---------------------------------------------------------------------------------------

  /** The lists of everybody in `fs`, one after the other. */
  function FlatLists(g: Graph, fs: seq<UserId>): seq<UserId> {
    if fs == [] then []
    else FlatLists(g, fs[..|fs| - 1]) + (if fs[|fs| - 1] in g then g[fs[|fs| - 1]] else [])
  }

  function FilterAllowed(s: seq<UserId>, me: UserId, following: seq<UserId>): (r: seq<UserId>)
    ensures forall x :: x in r <==> x in s && Allowed(me, following, x)
  {
    if s == [] then []
    else
      var init := FilterAllowed(s[..|s| - 1], me, following);
      if Allowed(me, following, s[|s| - 1]) then init + [s[|s| - 1]] else init
  }

  function CountOf(s: seq<UserId>, x: UserId): nat {
    if s == [] then 0 else CountOf(s[..|s| - 1], x) + (if s[|s| - 1] == x then 1 else 0)
  }

  function Score(counts: map<UserId, nat>, x: UserId): nat {
    if x in counts then counts[x] else 0
  }

  /** Put `x` after everybody who scores at least as much. */
  function InsertRanked(ranked: seq<UserId>, x: UserId, counts: map<UserId, nat>): (r: seq<UserId>)
    ensures forall y :: y in r <==> y == x || y in ranked
    ensures |r| == |ranked| + 1
  {
    if ranked == [] then [x]
    else if Score(counts, ranked[|ranked| - 1]) >= Score(counts, x) then ranked + [x]
    else InsertRanked(ranked[..|ranked| - 1], x, counts) + [ranked[|ranked| - 1]]
  }

  /** The stable `sort` by descending count. */
  function SortRanked(s: seq<UserId>, counts: map<UserId, nat>): (r: seq<UserId>)
    ensures forall y :: y in r <==> y in s
    ensures |r| == |s|
  {
    if s == [] then [] else InsertRanked(SortRanked(s[..|s| - 1], counts), s[|s| - 1], counts)
  }

  /** A slice from the start: a negative end counts from the back. */
  function Slice<T>(s: seq<T>, n: int): (r: seq<T>)
    ensures r <= s
    ensures n >= 0 ==> |r| == if n < |s| then n else |s|
    ensures n < 0 ==> |r| == if |s| + n > 0 then |s| + n else 0
  {
    if n >= 0 then s[..if n < |s| then n else |s|] else s[..if |s| + n > 0 then |s| + n else 0]
  }

  /** `getPopularUsers`: `popularity` lists all users in whatever order the database puts them. */
  function GetPopularUsers(popularity: seq<UserId>, me: UserId, following: seq<UserId>, limit: int): seq<UserId> {
    Slice(FilterAllowed(popularity, me, following), limit)
  }

  datatype Suggestion = Suggestion(id: UserId, mutualConnections: nat)

  function WithScores(ids: seq<UserId>, counts: map<UserId, nat>): (r: seq<Suggestion>)
    ensures |r| == |ids| && forall i :: 0 <= i < |r| ==> r[i] == Suggestion(ids[i], Score(counts, ids[i]))
  {
    seq(|ids|, i requires 0 <= i < |ids| => Suggestion(ids[i], Score(counts, ids[i])))
  }

  /** `reduce` with an accumulator object. */
  function Counts(s: seq<UserId>): (m: map<UserId, nat>)
    ensures forall x :: Score(m, x) == CountOf(s, x)
  {
    if s == [] then map[]
    else
      var m := Counts(s[..|s| - 1]);
      m[s[|s| - 1] := Score(m, s[|s| - 1]) + 1]
  }

  /** Ids in the order `getSuggestions` returns them, before the slice. */
  function RankedIds(g: Graph, popularity: seq<UserId>, me: UserId, limit: int): seq<UserId>
    requires me in g
  {
    var following := g[me];
    var fof := FilterAllowed(FlatLists(g, following), me, following);
    var unique := SortRanked(FirstOccurrences(fof), Counts(fof));
    if |unique| < limit then unique + GetPopularUsers(popularity, me, following, limit - |unique|) else unique
  }

  function GetSuggestions(g: Graph, popularity: seq<UserId>, me: UserId, limit: int): seq<Suggestion>
    requires me in g
  {
    var fof := FilterAllowed(FlatLists(g, g[me]), me, g[me]);
    WithScores(Slice(RankedIds(g, popularity, me, limit), limit), Counts(fof))
  }

  /** The ids that the client keeps of them, in their order. */
  function ShownIds(g: Graph, popularity: seq<UserId>, me: UserId, limit: int): seq<UserId>
    requires me in g
  {
    FirstOccurrences(Slice(RankedIds(g, popularity, me, limit), limit))
  }

  // ---------------------------------------------------------------------------------------
  // What the parts mean
  // ---------------------------------------------------------------------------------------

  lemma {:induction false} CountConcat(a: seq<UserId>, b: seq<UserId>, x: UserId)
    ensures CountOf(a + b, x) == CountOf(a, x) + CountOf(b, x)
  {
    if b == [] {
      assert a + b == a;
    } else {
      assert (a + b)[..|a + b| - 1] == a + b[..|b| - 1];
      CountConcat(a, b[..|b| - 1], x);
    }
  }

  lemma {:induction false} CountDistinct(s: seq<UserId>, x: UserId)
    requires NoRepeats(s)
    ensures CountOf(s, x) == if x in s then 1 else 0
  {
    if s != [] {
      var init := s[..|s| - 1];
      assert s == init + [s[|s| - 1]];
      LastIsNew(s);
      CountDistinct(init, x);
    }
  }

  lemma MutualsLast(g: Graph, fs: seq<UserId>, x: UserId)
    requires fs != [] && NoRepeats(fs) && (forall f :: f in fs ==> f in g)
    ensures var f := fs[|fs| - 1];
            |Mutuals(g, fs, x)| == |Mutuals(g, fs[..|fs| - 1], x)| + (if x in g[f] then 1 else 0)
  {
    var init, f := fs[..|fs| - 1], fs[|fs| - 1];
    LastIsNew(fs);
    assert fs == init + [f];
    assert Mutuals(g, fs, x) == Mutuals(g, init, x) + (if x in g[f] then {f} else {});
  }

  /** Occurrences in the flattened lists are mutual connections. */
  lemma {:induction false} CountIsMutuals(g: Graph, fs: seq<UserId>, x: UserId)
    requires ValidGraph(g) && NoRepeats(fs) && (forall f :: f in fs ==> f in g)
    ensures CountOf(FlatLists(g, fs), x) == |Mutuals(g, fs, x)|
  {
    if fs != [] {
      var init, f := fs[..|fs| - 1], fs[|fs| - 1];
      LastIsNew(fs);
      CountIsMutuals(g, init, x);
      CountConcat(FlatLists(g, init), g[f], x);
      CountDistinct(g[f], x);
      MutualsLast(g, fs, x);
    }
  }

  lemma {:induction false} CountFiltered(s: seq<UserId>, me: UserId, following: seq<UserId>, x: UserId)
    ensures CountOf(FilterAllowed(s, me, following), x) == if Allowed(me, following, x) then CountOf(s, x) else 0
  {
    if s != [] {
      var init, last := s[..|s| - 1], s[|s| - 1];
      CountFiltered(init, me, following, x);
      if Allowed(me, following, last) {
        var r := FilterAllowed(init, me, following);
        assert (r + [last])[..|r|] == r;
      }
    }
  }

  lemma {:induction false} CountPositive(s: seq<UserId>, x: UserId)
    ensures CountOf(s, x) > 0 <==> x in s
  {
    if s != [] {
      assert s == s[..|s| - 1] + [s[|s| - 1]];
      CountPositive(s[..|s| - 1], x);
    }
  }

  ghost predicate Ranked(s: seq<UserId>, counts: map<UserId, nat>) {
    forall i, j :: InRank(s, counts, i, j)
  }

  ghost predicate InRank(s: seq<UserId>, counts: map<UserId, nat>, i: int, j: int) {
    0 <= i < j < |s| ==> Score(counts, s[i]) >= Score(counts, s[j])
  }

  lemma {:induction false} InsertKeeps(s: seq<UserId>, x: UserId, counts: map<UserId, nat>)
    requires Ranked(s, counts) && NoRepeats(s) && x !in s
    ensures Ranked(InsertRanked(s, x, counts), counts) && NoRepeats(InsertRanked(s, x, counts))
  {
    var r := InsertRanked(s, x, counts);
    if s != [] {
      var init, last := s[..|s| - 1], s[|s| - 1];
      assert s == init + [last];
      LastIsNew(s);
      forall i, j ensures InRank(init, counts, i, j) { assert InRank(s, counts, i, j); }
      InsertKeeps(init, x, counts);
      forall y | y in init ensures Score(counts, y) >= Score(counts, last) {
        var i :| 0 <= i < |init| && init[i] == y;
        assert InRank(s, counts, i, |s| - 1);
      }
      var r0 := InsertRanked(init, x, counts);
      forall i, j
        ensures Differ(r, i, j) && InRank(r, counts, i, j)
      {
        assert Differ(s, i, j) && InRank(s, counts, i, j);
        assert Differ(r0, i, j) && InRank(r0, counts, i, j);
        if Score(counts, last) < Score(counts, x) && 0 <= i < |r0| { assert r0[i] in r0; }
        if Score(counts, last) >= Score(counts, x) && 0 <= i < |s| { assert s[i] in s; }
      }
    }
  }

  lemma {:induction false} SortKeeps(s: seq<UserId>, counts: map<UserId, nat>)
    requires NoRepeats(s)
    ensures Ranked(SortRanked(s, counts), counts) && NoRepeats(SortRanked(s, counts))
  {
    if s != [] {
      var init, last := s[..|s| - 1], s[|s| - 1];
      assert s == init + [last];
      LastIsNew(s);
      SortKeeps(init, counts);
      InsertKeeps(SortRanked(init, counts), last, counts);
    }
  }

  lemma {:induction false} InsertOrder(s: seq<UserId>, z: UserId, counts: map<UserId, nat>, x: UserId)
    requires Ranked(s, counts) && NoRepeats(s) && z !in s && x in s
    ensures Precedes(InsertRanked(s, z, counts), x, z) <==> Score(counts, x) >= Score(counts, z)
    ensures forall y :: y in s ==> (Precedes(InsertRanked(s, z, counts), x, y) <==> Precedes(s, x, y))
    decreases |s|, 0
  {
    var init, last := s[..|s| - 1], s[|s| - 1];
    assert s == init + [last];
    LastIsNew(s);
    PrefixKeeps(init, s, counts);
    var i := IndexIn(s, x);
    assert InRank(s, counts, i, |s| - 1);
    if Score(counts, last) >= Score(counts, z) {
      IndexConcat(s, [z], z);
      forall y | y in s ensures IndexIn(s + [z], y) == IndexIn(s, y) { IndexConcat(s, [z], y); }
    } else {
      InsertOrderLast(init, last, z, counts, x);
    }
  }

  /** The new one goes in before the last. */
  lemma {:induction false} InsertOrderLast(init: seq<UserId>, last: UserId, z: UserId, counts: map<UserId, nat>,
                                           x: UserId)
    requires Ranked(init, counts) && NoRepeats(init) && last !in init && z !in init && z != last
    requires (x in init || x == last) && Score(counts, last) < Score(counts, z)
    ensures var s, r := init + [last], InsertRanked(init, z, counts) + [last];
            && (Precedes(r, x, z) <==> Score(counts, x) >= Score(counts, z))
            && (forall y :: y in s ==> (Precedes(r, x, y) <==> Precedes(s, x, y)))
    decreases |init|, 1
  {
    var r0 := InsertRanked(init, z, counts);
    if x in init { InsertOrder(init, z, counts, x); }
    forall y ensures IndexIn(r0 + [last], y) == if y in r0 then IndexIn(r0, y) else |r0| + IndexIn([last], y) {
      IndexConcat(r0, [last], y);
    }
    forall y ensures IndexIn(init + [last], y) == if y in init then IndexIn(init, y) else |init| + IndexIn([last], y) {
      IndexConcat(init, [last], y);
    }
    assert last !in r0 && z in r0;
  }

  /** The sort puts higher counts first and leaves equal ones in their order. */
  lemma {:induction false} SortOrder(s: seq<UserId>, counts: map<UserId, nat>, x: UserId, y: UserId)
    requires NoRepeats(s) && x in s && y in s && x != y
    ensures Precedes(SortRanked(s, counts), x, y)
        <==> Score(counts, x) > Score(counts, y) || (Score(counts, x) == Score(counts, y) && Precedes(s, x, y))
  {
    var init, last := s[..|s| - 1], s[|s| - 1];
    var r := SortRanked(init, counts);
    assert s == init + [last];
    LastIsNew(s);
    SortKeeps(init, counts);
    IndexSnoc(s, x);
    IndexSnoc(s, y);
    if y != last { InsertOrder(r, last, counts, y); }
    if x != last { InsertOrder(r, last, counts, x); }
    if x != last && y != last { SortOrder(init, counts, x, y); }
  }

  // ---------------------------------------------------------------------------------------
  // The client
  // ---------------------------------------------------------------------------------------

  /** An element of the server's answer; the hook lets anything without an id through. */
  datatype Item = Anonymous | Known(suggestion: Suggestion)

  predicate HasId(data: seq<Item>, id: UserId) {
    exists i :: 0 <= i < |data| && data[i].Known? && data[i].suggestion.id == id
  }

  function UniqueItems(data: seq<Item>): seq<Item> {
    if data == [] then []
    else
      var init, last := data[..|data| - 1], data[|data| - 1];
      if last.Known? && HasId(init, last.suggestion.id) then UniqueItems(init) else UniqueItems(init) + [last]
  }

  /** An id that was there stays, no id stays twice, and whatever has no id stays as often as it was there. */
  lemma {:induction false} UniqueItemsAre(data: seq<Item>)
    ensures forall id :: HasId(UniqueItems(data), id) <==> HasId(data, id)
    ensures multiset(UniqueItems(data))[Anonymous] == multiset(data)[Anonymous]
    ensures var r := UniqueItems(data);
            forall i, j :: 0 <= i < j < |r| && r[i].Known? && r[j].Known? ==> r[i].suggestion.id != r[j].suggestion.id
  {
    if data != [] {
      var init, last := data[..|data| - 1], data[|data| - 1];
      var r := UniqueItems(init);
      UniqueItemsAre(init);
      assert data == init + [last];
      forall id ensures HasId(data, id) <==> HasId(init, id) || (last.Known? && last.suggestion.id == id) {
        HasIdSnoc(init, last, id);
      }
      forall id ensures HasId(r + [last], id) <==> HasId(r, id) || (last.Known? && last.suggestion.id == id) {
        HasIdSnoc(r, last, id);
      }
      if last.Known? {
        assert forall i :: 0 <= i < |r| && r[i].Known? ==> HasId(r, r[i].suggestion.id);
      }
    }
  }

  lemma HasIdSnoc(data: seq<Item>, item: Item, id: UserId)
    ensures HasId(data + [item], id) <==> HasId(data, id) || (item.Known? && item.suggestion.id == id)
  {
    if HasId(data, id) {
      var i :| 0 <= i < |data| && data[i].Known? && data[i].suggestion.id == id;
      assert (data + [item])[i] == data[i];
    }
    if item.Known? && item.suggestion.id == id { assert (data + [item])[|data|] == item; }
  }

  /** `uniqueSuggestions`. */
  method UniqueSuggestions(data: seq<Item>) returns (unique: seq<Item>)
    ensures unique == UniqueItems(data)
  {
    var seen: set<UserId> := {};
    unique := [];
    for k := 0 to |data|
      invariant unique == UniqueItems(data[..k])
      invariant forall id :: id in seen <==> HasId(data[..k], id)
    {
      var s := data[k];
      assert data[..k + 1] == data[..k] + [s] && data[..k + 1][..k] == data[..k];
      forall id ensures HasId(data[..k + 1], id) <==> HasId(data[..k], id) || (s.Known? && s.suggestion.id == id) {
        HasIdSnoc(data[..k], s, id);
      }
      if s.Anonymous? {
        unique := unique + [s];
      } else if s.suggestion.id !in seen {
        seen := seen + {s.suggestion.id};
        unique := unique + [s];
      }
    }
    assert data[..|data|] == data;
  }

  /** The `reduce` of the server, as the loop over the accumulator that it is. */
  method CountUsers(fof: seq<UserId>) returns (acc: map<UserId, nat>)
    ensures acc == Counts(fof)
  {
    acc := map[];
    for k := 0 to |fof|
      invariant acc == Counts(fof[..k])
    {
      assert fof[..k + 1][..k] == fof[..k];
      acc := acc[fof[k] := Score(acc, fof[k]) + 1];
    }
    assert fof[..|fof|] == fof;
  }

  function Items(ids: seq<UserId>, counts: map<UserId, nat>): (r: seq<Item>)
    ensures |r| == |ids| && forall i :: 0 <= i < |r| ==> r[i] == Known(Suggestion(ids[i], Score(counts, ids[i])))
  {
    seq(|ids|, i requires 0 <= i < |ids| => Known(Suggestion(ids[i], Score(counts, ids[i]))))
  }

  /** What arrives at the client. */
  function Received(list: seq<Suggestion>): (r: seq<Item>)
    ensures |r| == |list| && forall i :: 0 <= i < |r| ==> r[i] == Known(list[i])
  {
    seq(|list|, i requires 0 <= i < |list| => Known(list[i]))
  }

  lemma HasIdOfItems(ids: seq<UserId>, counts: map<UserId, nat>, id: UserId)
    ensures HasId(Items(ids, counts), id) <==> id in ids
  {
    if id in ids {
      var i :| 0 <= i < |ids| && ids[i] == id;
      assert Items(ids, counts)[i].suggestion.id == id;
    }
  }

  /** Dropping repeated ids from the suggestions is dropping repetitions from the list of ids. */
  lemma {:induction false} UniqueOfItems(ids: seq<UserId>, counts: map<UserId, nat>)
    ensures UniqueItems(Items(ids, counts)) == Items(FirstOccurrences(ids), counts)
  {
    if ids != [] {
      var init, last := ids[..|ids| - 1], ids[|ids| - 1];
      var data := Items(ids, counts);
      assert data[..|data| - 1] == Items(init, counts);
      UniqueOfItems(init, counts);
      HasIdOfItems(init, counts, last);
      assert data[|data| - 1] == Known(Suggestion(last, Score(counts, last)));
      if last !in init {
      }
    }
  }

  // ---------------------------------------------------------------------------------------
  // End to end
  // ---------------------------------------------------------------------------------------

  /** The people with mutual connections: ranked, all of them, none twice. */
  lemma RankedPart(g: Graph, me: UserId)
    requires ValidGraph(g) && me in g
    ensures var fof := FilterAllowed(FlatLists(g, g[me]), me, g[me]);
            var unique := SortRanked(FirstOccurrences(fof), Counts(fof));
            && NoRepeats(unique) && Ranked(unique, Counts(fof))
            && (forall x :: Allowed(me, g[me], x) ==> Score(Counts(fof), x) == |Mutuals(g, g[me], x)|)
            && (forall x :: x in unique <==> Allowed(me, g[me], x) && Mutuals(g, g[me], x) != {})
            && (forall x :: x !in unique ==> Score(Counts(fof), x) == 0)
  {
    var fof := FilterAllowed(FlatLists(g, g[me]), me, g[me]);
    FirstOccurrencesDistinct(fof);
    SortKeeps(FirstOccurrences(fof), Counts(fof));
    forall x
      ensures Allowed(me, g[me], x) ==> Score(Counts(fof), x) == |Mutuals(g, g[me], x)|
      ensures x in fof <==> Allowed(me, g[me], x) && Mutuals(g, g[me], x) != {}
      ensures x !in fof ==> Score(Counts(fof), x) == 0
    {
      CountIsMutuals(g, g[me], x);
      CountFiltered(FlatLists(g, g[me]), me, g[me], x);
      CountPositive(fof, x);
    }
  }

  lemma {:induction false} PrefixKeeps(r: seq<UserId>, s: seq<UserId>, counts: map<UserId, nat>)
    requires r <= s && NoRepeats(s) && Ranked(s, counts)
    ensures NoRepeats(r) && Ranked(r, counts)
  {
    forall i, j ensures Differ(r, i, j) && InRank(r, counts, i, j) {
      assert Differ(s, i, j) && InRank(s, counts, i, j);
    }
  }

  /** Appending people who score nothing keeps the ranking. */
  lemma AppendKeeps(unique: seq<UserId>, picks: seq<UserId>, counts: map<UserId, nat>)
    requires NoRepeats(unique) && Ranked(unique, counts) && forall x :: x !in unique ==> Score(counts, x) == 0
    ensures unique <= FirstOccurrences(unique + picks) && Ranked(FirstOccurrences(unique + picks), counts)
  {
    var ids := FirstOccurrences(unique + picks);
    FirstOccurrencesDistinct(unique + picks);
    FirstOccurrencesOfDistinct(unique);
    FirstOccurrencesGrow(unique, picks);
    forall i, j
      ensures InRank(ids, counts, i, j)
    {
      assert InRank(unique, counts, i, j);
      if 0 <= i < j < |ids| && j >= |unique| {
        assert ids[j] !in unique by {
          forall k | 0 <= k < |unique| ensures unique[k] != ids[j] { assert Differ(ids, k, j); }
        }
      }
    }
  }

  lemma CutKeeps(unique: seq<UserId>, picks: seq<UserId>, counts: map<UserId, nat>, limit: int)
    requires NoRepeats(unique) && Ranked(unique, counts) && forall x :: x !in unique ==> Score(counts, x) == 0
    ensures var cut := Slice(if |unique| < limit then unique + picks else unique, limit);
            var ids := FirstOccurrences(cut);
            && NoRepeats(ids) && Ranked(ids, counts)
            && (if |unique| < limit then unique <= ids else ids <= unique)
            && (limit >= 0 ==> |ids| <= limit)
  {
    var cut := Slice(if |unique| < limit then unique + picks else unique, limit);
    FirstOccurrencesDistinct(cut);
    FirstOccurrencesShort(cut);
    if |unique| < limit {
      assert cut == unique + cut[|unique|..];
      AppendKeeps(unique, cut[|unique|..], counts);
    } else {
      PrefixKeeps(cut, unique, counts);
      FirstOccurrencesOfDistinct(cut);
    }
  }

  /** Ids after both halves: the ranked people, then popular ones that score nothing. */
  lemma FinalIds(g: Graph, popularity: seq<UserId>, me: UserId, limit: int)
    requires ValidGraph(g) && me in g
    ensures var fof := FilterAllowed(FlatLists(g, g[me]), me, g[me]);
            var counts := Counts(fof);
            var unique := SortRanked(FirstOccurrences(fof), counts);
            var ids := ShownIds(g, popularity, me, limit);
            && NoRepeats(ids) && Ranked(ids, counts)
            && (forall x :: x in ids ==> Allowed(me, g[me], x))
            && (if |unique| < limit then unique <= ids else ids <= unique)
            && (limit >= 0 ==> |ids| <= limit)
  {
    var fof := FilterAllowed(FlatLists(g, g[me]), me, g[me]);
    var unique := SortRanked(FirstOccurrences(fof), Counts(fof));
    var picks := GetPopularUsers(popularity, me, g[me], limit - |unique|);
    RankedPart(g, me);
    CutKeeps(unique, picks, Counts(fof), limit);
    forall x | x in ShownIds(g, popularity, me, limit)
      ensures Allowed(me, g[me], x)
    {
      assert x in RankedIds(g, popularity, me, limit);
    }
  }

  /** Everybody with a mutual connection, ranked. */
  function Connections(g: Graph, me: UserId): seq<UserId>
    requires me in g
  {
    var fof := FilterAllowed(FlatLists(g, g[me]), me, g[me]);
    SortRanked(FirstOccurrences(fof), Counts(fof))
  }

  /** What the user sees. */
  function Shown(g: Graph, popularity: seq<UserId>, me: UserId, limit: int): seq<Item>
    requires me in g
  {
    UniqueItems(Received(GetSuggestions(g, popularity, me, limit)))
  }

  lemma ShownIs(g: Graph, popularity: seq<UserId>, me: UserId, limit: int)
    requires me in g
    ensures Shown(g, popularity, me, limit)
            == Items(ShownIds(g, popularity, me, limit), Counts(FilterAllowed(FlatLists(g, g[me]), me, g[me])))
  {
    var counts := Counts(FilterAllowed(FlatLists(g, g[me]), me, g[me]));
    var cut := Slice(RankedIds(g, popularity, me, limit), limit);
    assert Received(GetSuggestions(g, popularity, me, limit)) == Items(cut, counts);
    UniqueOfItems(cut, counts);
  }

  /**
   What the user sees: no person twice, not himself, nobody he follows already, at most `limit`
   entries; every number is the number of people he follows who follow that person; and the numbers
   do not increase.
   */
  lemma SuggestionsEndToEnd(g: Graph, popularity: seq<UserId>, me: UserId, limit: int)
    requires ValidGraph(g) && me in g
    ensures var shown := Shown(g, popularity, me, limit);
            && (forall i :: 0 <= i < |shown| ==> shown[i].Known? && Allowed(me, g[me], shown[i].suggestion.id))
            && (forall i :: 0 <= i < |shown| ==>
                  shown[i].suggestion.mutualConnections == |Mutuals(g, g[me], shown[i].suggestion.id)|)
            && (forall i, j :: 0 <= i < j < |shown| ==>
                  shown[i].suggestion.id != shown[j].suggestion.id
                  && shown[i].suggestion.mutualConnections >= shown[j].suggestion.mutualConnections)
            && (limit >= 0 ==> |shown| <= limit)
  {
    var counts := Counts(FilterAllowed(FlatLists(g, g[me]), me, g[me]));
    var ids := ShownIds(g, popularity, me, limit);
    ShownIs(g, popularity, me, limit);
    RankedPart(g, me);
    FinalIds(g, popularity, me, limit);
    forall i, j | 0 <= i < j < |ids|
      ensures ids[i] != ids[j] && Score(counts, ids[i]) >= Score(counts, ids[j])
    {
      assert Differ(ids, i, j) && InRank(ids, counts, i, j);
    }
  }

  /** Top-k: whoever has mutual connections but is left out has no more of them than anyone shown. */
  lemma OmittedScoreNoMore(g: Graph, popularity: seq<UserId>, me: UserId, limit: int, x: UserId, i: nat)
    requires ValidGraph(g) && me in g && Allowed(me, g[me], x) && Mutuals(g, g[me], x) != {}
    requires i < |Shown(g, popularity, me, limit)| && !HasId(Shown(g, popularity, me, limit), x)
    ensures Shown(g, popularity, me, limit)[i].Known?
            && Shown(g, popularity, me, limit)[i].suggestion.mutualConnections >= |Mutuals(g, g[me], x)|
  {
    var counts := Counts(FilterAllowed(FlatLists(g, g[me]), me, g[me]));
    var ids := ShownIds(g, popularity, me, limit);
    ShownIs(g, popularity, me, limit);
    RankedPart(g, me);
    LeftOut(g, popularity, me, limit, x, i);
  }

  lemma LeftOut(g: Graph, popularity: seq<UserId>, me: UserId, limit: int, x: UserId, i: nat)
    requires ValidGraph(g) && me in g && Allowed(me, g[me], x) && Mutuals(g, g[me], x) != {}
    requires var ids := ShownIds(g, popularity, me, limit);
             i < |ids| && x !in ids
    ensures var ids := ShownIds(g, popularity, me, limit);
            var counts := Counts(FilterAllowed(FlatLists(g, g[me]), me, g[me]));
            Score(counts, ids[i]) >= Score(counts, x)
  {
    var fof := FilterAllowed(FlatLists(g, g[me]), me, g[me]);
    var counts := Counts(fof);
    var unique := SortRanked(FirstOccurrences(fof), counts);
    var ids := ShownIds(g, popularity, me, limit);
    RankedPart(g, me);
    FinalIds(g, popularity, me, limit);
    assert x in unique;
    var j :| 0 <= j < |unique| && unique[j] == x;
    forall k | 0 <= k < |ids|
      ensures unique[k] != x
    {
      assert ids[k] == unique[k];
    }
    assert InRank(unique, counts, i, j);
  }

  /** Everybody who could be suggested and has a mutual connection. */
  ghost function Connected(g: Graph, me: UserId): set<UserId>
    requires me in g
  {
    set x | x in g && Allowed(me, g[me], x) && Mutuals(g, g[me], x) != {}
  }

  lemma ConnectionsAre(g: Graph, me: UserId)
    requires ValidGraph(g) && me in g
    ensures Elements(Connections(g, me)) == Connected(g, me) && |Connections(g, me)| == |Connected(g, me)|
  {
    RankedPart(g, me);
    forall x | Mutuals(g, g[me], x) != {}
      ensures x in g
    {
      var f :| f in Mutuals(g, g[me], x);
    }
    ElementsSize(Connections(g, me));
  }

  // ---------------------------------------------------------------------------------------
  // Which popular users are picked
  // ---------------------------------------------------------------------------------------

  ghost function Candidates(popularity: seq<UserId>, me: UserId, following: seq<UserId>): set<UserId> {
    set x | x in popularity && Allowed(me, following, x)
  }

  /** Those who could be picked and are more popular. */
  ghost function Ahead(popularity: seq<UserId>, me: UserId, following: seq<UserId>, x: UserId): set<UserId> {
    set y | y in popularity && Allowed(me, following, y) && Precedes(popularity, y, x)
  }

  lemma {:induction false} FilterOrder(s: seq<UserId>, me: UserId, following: seq<UserId>, x: UserId, y: UserId)
    requires x in s && y in s && Allowed(me, following, x) && Allowed(me, following, y)
    ensures Precedes(FilterAllowed(s, me, following), x, y) <==> Precedes(s, x, y)
  {
    var init, last := s[..|s| - 1], s[|s| - 1];
    var kept := FilterAllowed(init, me, following);
    assert s == init + [last];
    IndexSnoc(s, x);
    IndexSnoc(s, y);
    IndexConcat(kept, [last], x);
    IndexConcat(kept, [last], y);
    if x in init && y in init {
      FilterOrder(init, me, following, x, y);
    }
  }

  lemma {:induction false} FilterKeepsDistinct(s: seq<UserId>, me: UserId, following: seq<UserId>)
    requires NoRepeats(s)
    ensures NoRepeats(FilterAllowed(s, me, following))
  {
    if s != [] {
      var init, last := s[..|s| - 1], s[|s| - 1];
      LastIsNew(s);
      FilterKeepsDistinct(init, me, following);
      var r := FilterAllowed(init, me, following);
      forall i, j ensures Differ(r + [last], i, j) { assert Differ(r, i, j); }
    }
  }

  lemma PrefixDistinct(s: seq<UserId>, n: nat)
    requires NoRepeats(s) && n <= |s|
    ensures NoRepeats(s[..n])
  {
    forall i, j ensures Differ(s[..n], i, j) { assert Differ(s, i, j); }
  }

  lemma AheadSize(popularity: seq<UserId>, me: UserId, following: seq<UserId>, k: nat)
    requires NoRepeats(popularity) && k < |FilterAllowed(popularity, me, following)|
    ensures |Ahead(popularity, me, following, FilterAllowed(popularity, me, following)[k])| == k
  {
    var all := FilterAllowed(popularity, me, following);
    FilterKeepsDistinct(popularity, me, following);
    PrefixDistinct(all, k);
    ElementsSize(all[..k]);
    forall y | y in all
      ensures y in all[..k] <==> Precedes(popularity, y, all[k])
    {
      FilterOrder(popularity, me, following, y, all[k]);
      IndexIs(all, k);
      if y in all[..k] {
        var i :| 0 <= i < k && all[i] == y;
        IndexIs(all, i);
      }
    }
    assert Ahead(popularity, me, following, all[k]) == Elements(all[..k]);
  }

  /** A popular user is picked exactly if he could be suggested and fewer than `limit` such users are more popular. */
  lemma PickedIff(popularity: seq<UserId>, me: UserId, following: seq<UserId>, limit: nat, x: UserId)
    requires NoRepeats(popularity)
    ensures x in GetPopularUsers(popularity, me, following, limit)
        <==> x in popularity && Allowed(me, following, x) && |Ahead(popularity, me, following, x)| < limit
  {
    var all, picks := FilterAllowed(popularity, me, following), GetPopularUsers(popularity, me, following, limit);
    FilterKeepsDistinct(popularity, me, following);
    if x in all {
      var k := IndexIn(all, x);
      AheadSize(popularity, me, following, k);
      if x in picks {
        var i :| 0 <= i < |picks| && picks[i] == x;
        IndexIs(all, i);
      }
      if k < limit { assert picks[k] == x; }
    }
  }

  /** As many are picked as were asked for, or else all; none twice; the more popular first. */
  lemma PicksAre(popularity: seq<UserId>, me: UserId, following: seq<UserId>, limit: nat)
    requires NoRepeats(popularity)
    ensures var picks, n := GetPopularUsers(popularity, me, following, limit), |Candidates(popularity, me, following)|;
            && |picks| == (if limit < n then limit else n)
            && NoRepeats(picks)
            && (forall i, j :: 0 <= i < j < |picks| ==> Precedes(popularity, picks[i], picks[j]))
  {
    var all, picks := FilterAllowed(popularity, me, following), GetPopularUsers(popularity, me, following, limit);
    FilterKeepsDistinct(popularity, me, following);
    ElementsSize(all);
    assert Elements(all) == Candidates(popularity, me, following);
    PrefixDistinct(all, |picks|);
    forall i, j | 0 <= i < j < |picks|
      ensures Precedes(popularity, picks[i], picks[j])
    {
      IndexIs(all, i);
      IndexIs(all, j);
      FilterOrder(popularity, me, following, all[i], all[j]);
    }
  }

  ghost function Followers(g: Graph, x: UserId): set<UserId> {
    set f | f in g && x in g[f]
  }

  /** The order the database is asked for: by descending number of followers. */
  ghost predicate ByFollowers(g: Graph, popularity: seq<UserId>) {
    forall i, j :: 0 <= i < j < |popularity| ==> |Followers(g, popularity[i])| >= |Followers(g, popularity[j])|
  }

  lemma AheadGrows(popularity: seq<UserId>, me: UserId, following: seq<UserId>, x: UserId, y: UserId)
    requires IndexIn(popularity, x) <= IndexIn(popularity, y)
    ensures |Ahead(popularity, me, following, x)| <= |Ahead(popularity, me, following, y)|
  {
    var fewer, all := Ahead(popularity, me, following, x), Ahead(popularity, me, following, y);
    assert all == fewer + (all - fewer);
  }

  /** So nobody who is passed over has more followers than somebody who is picked. */
  lemma PassedOverHasFewer(g: Graph, popularity: seq<UserId>, me: UserId, following: seq<UserId>, limit: nat,
                           x: UserId, y: UserId)
    requires NoRepeats(popularity) && ByFollowers(g, popularity)
    requires x in GetPopularUsers(popularity, me, following, limit)
    requires y in popularity && Allowed(me, following, y) && y !in GetPopularUsers(popularity, me, following, limit)
    ensures |Followers(g, x)| >= |Followers(g, y)|
  {
    PickedIff(popularity, me, following, limit, x);
    PickedIff(popularity, me, following, limit, y);
    if IndexIn(popularity, y) <= IndexIn(popularity, x) { AheadGrows(popularity, me, following, y, x); }
  }

  /** The popular users asked for when there are too few with connections. */
  function Picks(g: Graph, popularity: seq<UserId>, me: UserId, limit: int): seq<UserId>
    requires me in g
  {
    GetPopularUsers(popularity, me, g[me], limit - |Connections(g, me)|)
  }

  /** The most popular users that could be suggested, one for each free place. */
  ghost predicate Chosen(g: Graph, popularity: seq<UserId>, me: UserId, limit: int, x: UserId)
    requires me in g
  {
    x in popularity && Allowed(me, g[me], x) && |Ahead(popularity, me, g[me], x)| < limit - |Connected(g, me)|
  }

  lemma CutIs(g: Graph, popularity: seq<UserId>, me: UserId, limit: int)
    requires me in g && |Connections(g, me)| < limit
    ensures Slice(RankedIds(g, popularity, me, limit), limit) == Connections(g, me) + Picks(g, popularity, me, limit)
  {}

  /** With places left, everybody with a mutual connection is shown, the most popular others, and nobody else. */
  lemma ShownIff(g: Graph, popularity: seq<UserId>, me: UserId, limit: int, x: UserId)
    requires ValidGraph(g) && me in g && NoRepeats(popularity) && |Connected(g, me)| < limit
    ensures HasId(Shown(g, popularity, me, limit), x)
        <==> x in Connected(g, me) || Chosen(g, popularity, me, limit, x)
  {
    var counts := Counts(FilterAllowed(FlatLists(g, g[me]), me, g[me]));
    var cut := Slice(RankedIds(g, popularity, me, limit), limit);
    ConnectionsAre(g, me);
    CutIs(g, popularity, me, limit);
    ShownIs(g, popularity, me, limit);
    HasIdOfItems(FirstOccurrences(cut), counts, x);
    PickedIff(popularity, me, g[me], limit - |Connections(g, me)|, x);
    assert x in Elements(Connections(g, me)) <==> x in Connections(g, me);
  }

  lemma UnionSize(a: seq<UserId>, b: seq<UserId>)
    requires NoRepeats(a)
    ensures |FirstOccurrences(a + b)| == |a| + |Elements(b) - Elements(a)|
  {
    FirstOccurrencesDistinct(a + b);
    ElementsSize(FirstOccurrences(a + b));
    ElementsSize(a);
    assert Elements(FirstOccurrences(a + b)) == Elements(a) + (Elements(b) - Elements(a));
  }

  ghost function ChosenUsers(g: Graph, popularity: seq<UserId>, me: UserId, limit: int): set<UserId>
    requires me in g
  {
    set x | x in popularity && Chosen(g, popularity, me, limit, x)
  }

  lemma PicksAreChosen(g: Graph, popularity: seq<UserId>, me: UserId, limit: int)
    requires ValidGraph(g) && me in g && NoRepeats(popularity) && |Connected(g, me)| <= limit
    ensures Elements(Picks(g, popularity, me, limit)) == ChosenUsers(g, popularity, me, limit)
  {
    ConnectionsAre(g, me);
    forall x
      ensures x in Picks(g, popularity, me, limit) <==> x in popularity && Chosen(g, popularity, me, limit, x)
    {
      PickedIff(popularity, me, g[me], limit - |Connections(g, me)|, x);
    }
  }

  /** How many are shown: those chosen who are ranked already take a place without adding anybody. */
  lemma ShownCount(g: Graph, popularity: seq<UserId>, me: UserId, limit: int)
    requires ValidGraph(g) && me in g && NoRepeats(popularity) && |Connected(g, me)| < limit
    ensures |Shown(g, popularity, me, limit)|
            == |Connected(g, me)| + |ChosenUsers(g, popularity, me, limit) - Connected(g, me)|
  {
    ConnectionsAre(g, me);
    PicksAreChosen(g, popularity, me, limit);
    CutIs(g, popularity, me, limit);
    ShownIs(g, popularity, me, limit);
    RankedPart(g, me);
    UnionSize(Connections(g, me), Picks(g, popularity, me, limit));
  }

  lemma ShownWhenEnough(g: Graph, popularity: seq<UserId>, me: UserId, limit: int)
    requires ValidGraph(g) && me in g && 0 <= limit <= |Connections(g, me)|
    ensures |Shown(g, popularity, me, limit)| == limit
  {
    var unique := Connections(g, me);
    ShownIs(g, popularity, me, limit);
    RankedPart(g, me);
    PrefixKeeps(unique[..limit], unique, Counts(FilterAllowed(FlatLists(g, g[me]), me, g[me])));
    FirstOccurrencesOfDistinct(unique[..limit]);
  }

  lemma ChosenSize(g: Graph, popularity: seq<UserId>, me: UserId, limit: int)
    requires ValidGraph(g) && me in g && NoRepeats(popularity) && |Connected(g, me)| <= limit
    ensures var n, free := |Candidates(popularity, me, g[me])|, limit - |Connected(g, me)|;
            |ChosenUsers(g, popularity, me, limit)| == if free < n then free else n
  {
    ConnectionsAre(g, me);
    PicksAreChosen(g, popularity, me, limit);
    PicksAre(popularity, me, g[me], limit - |Connected(g, me)|);
    ElementsSize(Picks(g, popularity, me, limit));
  }

  lemma Overlap(a: set<UserId>, b: set<UserId>)
    ensures |a - b| <= |a|
    ensures |a - b| == |a| <==> a !! b
  {
    assert a == (a - b) + a * b && |a| == |a - b| + |a * b|;
  }

  /**
   The list has `limit` entries exactly if that many people have mutual connections, or there are enough popular
   users for the free places and none of those chosen for them has a mutual connection.
   */
  lemma FullIff(g: Graph, popularity: seq<UserId>, me: UserId, limit: int)
    requires ValidGraph(g) && me in g && NoRepeats(popularity) && limit >= 0
    ensures |Shown(g, popularity, me, limit)| == limit <==>
            || |Connected(g, me)| >= limit
            || (|Candidates(popularity, me, g[me])| >= limit - |Connected(g, me)|
                && forall x :: x in Connected(g, me) ==> !Chosen(g, popularity, me, limit, x))
  {
    ConnectionsAre(g, me);
    if |Connected(g, me)| >= limit {
      ShownWhenEnough(g, popularity, me, limit);
    } else {
      ShownCount(g, popularity, me, limit);
      ChosenSize(g, popularity, me, limit);
      Overlap(ChosenUsers(g, popularity, me, limit), Connected(g, me));
    }
  }

  /** The rule of the whole list: more mutual connections, then the order of the lists, then popularity. */
  ghost predicate RanksBefore(g: Graph, popularity: seq<UserId>, me: UserId, x: UserId, y: UserId)
    requires me in g
  {
    var m, n := |Mutuals(g, g[me], x)|, |Mutuals(g, g[me], y)|;
    m > n || (m == n && Precedes(if m > 0 then FlatLists(g, g[me]) else popularity, x, y))
  }

  lemma ConnectionsOrder(g: Graph, popularity: seq<UserId>, me: UserId, x: UserId, y: UserId)
    requires ValidGraph(g) && me in g && x in Connections(g, me) && y in Connections(g, me) && x != y
    ensures Precedes(Connections(g, me), x, y) <==> RanksBefore(g, popularity, me, x, y)
  {
    var fof := FilterAllowed(FlatLists(g, g[me]), me, g[me]);
    RankedPart(g, me);
    FirstOccurrencesDistinct(fof);
    SortOrder(FirstOccurrences(fof), Counts(fof), x, y);
    FirstOccurrencesOrder(fof, x, y);
    FilterOrder(FlatLists(g, g[me]), me, g[me], x, y);
  }

  lemma PicksOrder(popularity: seq<UserId>, me: UserId, following: seq<UserId>, limit: nat, x: UserId, y: UserId)
    requires NoRepeats(popularity)
    requires x in GetPopularUsers(popularity, me, following, limit)
    requires y in GetPopularUsers(popularity, me, following, limit)
    ensures Precedes(GetPopularUsers(popularity, me, following, limit), x, y) <==> Precedes(popularity, x, y)
  {
    PicksAre(popularity, me, following, limit);
    var picks := GetPopularUsers(popularity, me, following, limit);
    var i, j := IndexIn(picks, x), IndexIn(picks, y);
    if j < i { assert Precedes(popularity, picks[j], picks[i]); }
    if i < j { assert Precedes(popularity, picks[i], picks[j]); }
  }

  lemma AppendOrder(unique: seq<UserId>, picks: seq<UserId>, x: UserId, y: UserId)
    requires x in unique + picks && y in unique + picks
    ensures Precedes(FirstOccurrences(unique + picks), x, y)
        <==> if y in unique then x in unique && Precedes(unique, x, y) else x in unique || Precedes(picks, x, y)
  {
    FirstOccurrencesOrder(unique + picks, x, y);
    IndexConcat(unique, picks, x);
    IndexConcat(unique, picks, y);
  }

  lemma PrefixOrder(r: seq<UserId>, s: seq<UserId>, x: UserId, y: UserId)
    requires r <= s && x in r && y in r
    ensures Precedes(r, x, y) <==> Precedes(s, x, y)
  {
    assert s == r + s[|r|..];
    IndexConcat(r, s[|r|..], x);
    IndexConcat(r, s[|r|..], y);
  }

  /** Whom the user sees first: the list, or as much of it as fits, stands in the order of `RanksBefore`. */
  lemma ShownOrder(g: Graph, popularity: seq<UserId>, me: UserId, limit: int, x: UserId, y: UserId)
    requires ValidGraph(g) && me in g && NoRepeats(popularity) && x != y
    requires x in ShownIds(g, popularity, me, limit) && y in ShownIds(g, popularity, me, limit)
    ensures Precedes(ShownIds(g, popularity, me, limit), x, y) <==> RanksBefore(g, popularity, me, x, y)
  {
    var unique, picks := Connections(g, me), Picks(g, popularity, me, limit);
    RankedPart(g, me);
    if x in unique && y in unique { ConnectionsOrder(g, popularity, me, x, y); }
    if |unique| < limit {
      CutIs(g, popularity, me, limit);
      AppendOrder(unique, picks, x, y);
      if x !in unique && y !in unique { PicksOrder(popularity, me, g[me], limit - |unique|, x, y); }
      OnlyConnected(g, popularity, me, limit, x);
      OnlyConnected(g, popularity, me, limit, y);
    } else {
      var cut := Slice(unique, limit);
      PrefixKeeps(cut, unique, Counts(FilterAllowed(FlatLists(g, g[me]), me, g[me])));
      FirstOccurrencesOfDistinct(cut);
      PrefixOrder(cut, unique, x, y);
    }
  }

  lemma OnlyConnected(g: Graph, popularity: seq<UserId>, me: UserId, limit: int, x: UserId)
    requires ValidGraph(g) && me in g && x in ShownIds(g, popularity, me, limit)
    ensures x in Connections(g, me) <==> |Mutuals(g, g[me], x)| > 0
  {
    RankedPart(g, me);
    FinalIds(g, popularity, me, limit);
  }

  /** 0 follows 1, who follows 2; nobody else follows anybody. */
  const LINE: Graph := map[0 := [1], 1 := [2], 2 := [], 3 := []]

  lemma LineIsValid()
    ensures ValidGraph(LINE)
    ensures forall x :: Mutuals(LINE, LINE[0], x) == if x == 2 then {1} else {}
  {}

  lemma LineConnections()
    ensures Connected(LINE, 0) == {2}
  {
    LineIsValid();
  }

  lemma LineChosen()
    ensures ChosenUsers(LINE, [2, 3], 0, 2) == {2}
  {
    LineConnections();
    assert IndexIn([2, 3], 2) == 0 && IndexIn([2, 3], 3) == 1 by { assert [2, 3][1..] == [3]; }
    assert Ahead([2, 3], 0, [1], 2) == {};
    assert Ahead([2, 3], 0, [1], 3) == {2};
    assert |Connected(LINE, 0)| == 1;
  }

  /** A place is free, `x` could be suggested and is among the popular, and yet he is left out. */
  ghost predicate LeftOutOfFree(g: Graph, popularity: seq<UserId>, me: UserId, limit: int, x: UserId) {
    && ValidGraph(g) && me in g && NoRepeats(popularity) && x in popularity && Allowed(me, g[me], x)
    && |Shown(g, popularity, me, limit)| < limit && !HasId(Shown(g, popularity, me, limit), x)
  }

  /** A place can stay empty: 2 is ranked and is the most popular user too, so 3 is left out though a place is free. */
  lemma PlaceStaysEmpty()
    ensures exists g, popularity, me, x :: LeftOutOfFree(g, popularity, me, 2, x)
  {
    LineIsValid();
    LineConnections();
    LineChosen();
    assert NoRepeats([2, 3]);
    ShownCount(LINE, [2, 3], 0, 2);
    ShownIff(LINE, [2, 3], 0, 2, 3);
    assert [2, 3][1] == 3 && 3 !in ChosenUsers(LINE, [2, 3], 0, 2);
    assert LeftOutOfFree(LINE, [2, 3], 0, 2, 3);
  }
}
