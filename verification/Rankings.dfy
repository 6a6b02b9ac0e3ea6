/**
 The Redis rankings: each is a sorted set of members plus one metadata entry a
 member. Metadata is only reachable through the sorted set.
 */
module Rankings {
  import opened Domain
  import opened SortedSets

  const NEW_LISTINGS_LIMIT: nat := 20

  datatype Ranking<T> = Ranking(zset: ZSet, meta: map<string, T>) {
    function Add(score: int, member: string, item: T): Ranking<T> {
      Ranking(ZAdd(zset, score, member), meta[member := item])
    }

    function Remove(member: string): Ranking<T> {
      Ranking(ZRem(zset, member), meta - {member})
    }

    function Trim(limit: nat): Ranking<T> {
      Ranking(ZTrim(zset, limit), meta)
    }

    ghost function Members(): set<string> {
      Scores(zset).Keys
    }

    // What a reader of the whole ranking sees.
    ghost function Visible(): map<string, T> {
      map m | m in Members() && m in meta :: meta[m]
    }
  }

  datatype Rankings = Rankings(
    newListings: Ranking<ListingItem>,
    bestDeals: Ranking<ListingItem>,
    mostTraded: Ranking<MostTradedItem>,
    topEarners: Ranking<TopEarnerItem>)

  function NewListingsAdd(r: Ranking<ListingItem>, item: ListingItem): Ranking<ListingItem> {
    r.Add(item.listedAt, item.name, item).Trim(NEW_LISTINGS_LIMIT)
  }

  function BestDealsAdd(r: Ranking<ListingItem>, item: ListingItem): Ranking<ListingItem> {
    r.Add(item.discount, item.name, item)
  }

  function MostTradedAdd(r: Ranking<MostTradedItem>, item: MostTradedItem): Ranking<MostTradedItem> {
    r.Add(item.tradeCount, item.name, item)
  }

  function TopEarnersAdd(r: Ranking<TopEarnerItem>, item: TopEarnerItem): Ranking<TopEarnerItem> {
    r.Add(item.profit, item.address, item)
  }

  lemma AddShows<T>(r: Ranking<T>, score: int, member: string, item: T)
    ensures r.Add(score, member, item).Visible() == r.Visible()[member := item]
  {
  }

  lemma RemoveHides<T>(r: Ranking<T>, member: string)
    ensures r.Remove(member).Visible() == r.Visible() - {member}
  {
  }

  // A removed member is forgotten, metadata included, and the others are not.
  lemma RemoveForgets<T>(r: Ranking<T>, member: string)
    ensures member !in r.Remove(member).Members() && member !in r.Remove(member).meta
    ensures r.Remove(member).Members() == r.Members() - {member}
    ensures forall m :: m in r.meta && m != member ==> m in r.Remove(member).meta && r.Remove(member).meta[m] == r.meta[m]
  {
  }

  // The highest `count` entries, highest first, skipping members without metadata.
  function ReadTop<T>(z: seq<Entry>, meta: map<string, T>, count: nat): seq<T> {
    if z == [] || count == 0 then []
    else
      var e := z[|z| - 1];
      (if e.member in meta then [meta[e.member]] else []) + ReadTop(z[..|z| - 1], meta, count - 1)
  }

  // Reading a ranking whose members all have metadata shows the `count` highest
  // entries (all of them, if there are fewer), highest first.
  lemma {:induction false} ReadTopIs<T>(z: seq<Entry>, meta: map<string, T>, count: nat, i: nat)
    requires forall e :: e in z ==> e.member in meta
    requires i < Min(count, |z|)
    ensures |ReadTop(z, meta, count)| == Min(count, |z|)
    ensures ReadTop(z, meta, count)[i] == meta[z[|z| - 1 - i].member]
  {
    var rest, last := z[..|z| - 1], z[|z| - 1];
    assert last in z;
    if i > 0 {
      ReadTopIs(rest, meta, count - 1, i - 1);
    } else if count > 1 && rest != [] {
      ReadTopIs(rest, meta, count - 1, 0);
    }
  }

  // `ZREVRANGE 0 (count - 1)`: the subtraction wraps around for a count of 0,
  // and the stop index -1 means the whole set.
  function ReadLimit(z: seq<Entry>, count: nat): nat {
    if count == 0 then |z| else count
  }

  /** The Redis client, reduced to the rankings. */
  class Redis {
    var newListings: Ranking<ListingItem>
    var bestDeals: Ranking<ListingItem>
    var mostTraded: Ranking<MostTradedItem>
    var topEarners: Ranking<TopEarnerItem>

    function Model(): Rankings
      reads this
    {
      Rankings(newListings, bestDeals, mostTraded, topEarners)
    }

    constructor ()
      ensures Model() == EmptyRankings()
    {
      newListings := Ranking([], map[]);
      bestDeals := Ranking([], map[]);
      mostTraded := Ranking([], map[]);
      topEarners := Ranking([], map[]);
    }

    // ZADD, SET of the metadata, ZCARD, then the rank trim only above the limit.
    method AddNewListing(item: ListingItem)
      modifies this`newListings
      ensures newListings == NewListingsAdd(old(newListings), item)
    {
      newListings := newListings.Add(item.listedAt, item.name, item);
      var count := |newListings.zset|;
      if count > NEW_LISTINGS_LIMIT {
        newListings := newListings.Trim(NEW_LISTINGS_LIMIT);
      }
    }

    method RemNewListing(name: Name)
      modifies this`newListings
      ensures newListings == old(newListings).Remove(name)
    {
      newListings := newListings.Remove(name);
    }

    method AddBestDeal(item: ListingItem)
      modifies this`bestDeals
      ensures bestDeals == BestDealsAdd(old(bestDeals), item)
    {
      bestDeals := bestDeals.Add(item.discount, item.name, item);
    }

    method RemBestDeal(name: Name)
      modifies this`bestDeals
      ensures bestDeals == old(bestDeals).Remove(name)
    {
      bestDeals := bestDeals.Remove(name);
    }

    method AddMostTraded(item: MostTradedItem)
      modifies this`mostTraded
      ensures mostTraded == MostTradedAdd(old(mostTraded), item)
    {
      mostTraded := mostTraded.Add(item.tradeCount, item.name, item);
    }

    method AddTopEarner(item: TopEarnerItem)
      modifies this`topEarners
      ensures topEarners == TopEarnersAdd(old(topEarners), item)
    {
      topEarners := topEarners.Add(item.profit, item.address, item);
    }

    // DEL of the sorted sets; the metadata entries are not deleted.
    method ClearRankings()
      modifies this
      ensures newListings == Ranking([], old(newListings).meta)
      ensures bestDeals == Ranking([], old(bestDeals).meta)
      ensures mostTraded == Ranking([], old(mostTraded).meta)
      ensures topEarners == Ranking([], old(topEarners).meta)
    {
      newListings := newListings.(zset := []);
      bestDeals := bestDeals.(zset := []);
      mostTraded := mostTraded.(zset := []);
      topEarners := topEarners.(zset := []);
    }

    // ZREVRANGE 0 (count - 1), then one metadata read a member.
    method GetBestDeals(count: nat) returns (items: seq<ListingItem>)
      ensures items == ReadTop(bestDeals.zset, bestDeals.meta, ReadLimit(bestDeals.zset, count))
    {
      items := [];
      var rest: seq<Entry> := bestDeals.zset;
      var limit := ReadLimit(bestDeals.zset, count);
      var left := limit;
      while left > 0 && rest != []
        invariant items + ReadTop(rest, bestDeals.meta, left) == ReadTop(bestDeals.zset, bestDeals.meta, limit)
        decreases |rest|
      {
        var name := rest[|rest| - 1].member;
        var found := if name in bestDeals.meta then [bestDeals.meta[name]] else [];
        ghost var more := ReadTop(rest[..|rest| - 1], bestDeals.meta, left - 1);
        assert ReadTop(rest, bestDeals.meta, left) == found + more;
        assert items + (found + more) == (items + found) + more;
        items := items + found;
        rest, left := rest[..|rest| - 1], left - 1;
      }
    }
  }

  function EmptyRankings(): Rankings {
    Rankings(Ranking([], map[]), Ranking([], map[]), Ranking([], map[]), Ranking([], map[]))
  }
}
