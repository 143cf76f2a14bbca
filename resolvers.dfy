/** The in-memory GraphQL resolvers of graphql/resolvers.ts: the
    `Query.statuses`, `Query.status`, `Query.banners` and `Status.author`
    resolvers over three hardcoded arrays. */
module Resolvers {
  import opened ArrayMethods

  // ---------------------------------------------------------------------
  // Data
  // ---------------------------------------------------------------------

  /** A status; `createdAt` is an ISO-8601 string. */
  datatype Status = Status(id: string, authorId: string, body: string, createdAt: string)

  datatype Author = Author(id: string, name: string)

  /** A JavaScript or GraphQL value that may be `null`. */
  datatype Nullable<+T> = Null | NonNull(value: T)

  /** A banner; `href` is a link target or `null`. */
  datatype Banner = Banner(id: string, groupId: string, href: Nullable<string>)

  /** The hardcoded statuses.  Each `createdAt` is
      `new Date(2021, month, day).toISOString()` as a process in the UTC
      time zone prints it. */
  const Statuses: seq<Status> := [
    Status("2", "1", "inviting coworkers", "2021-05-02T00:00:00.000Z"),
    Status("1", "1", "just setting up my app", "2021-05-01T00:00:00.000Z")
  ]

  const Authors: seq<Author> := [Author("1", "jack")]

  const Banners: seq<Banner> := [
    Banner("2", "1", Null),
    Banner("1", "1", Null)
  ]

  // ---------------------------------------------------------------------
  // Lookups
  // ---------------------------------------------------------------------

  /** `listStatuses()`, which `Query.statuses` returns: every status, in
      the stored order. */
  function ListStatuses(): (r: seq<Status>)
    ensures |r| == |Statuses| && forall i | 0 <= i < |r| :: r[i] == Statuses[i]
  {
    Statuses
  }

  /** `getStatus(id)`: the first status with that id, or `undefined`. */
  function GetStatus(id: string): (r: Option<Status>)
    ensures r.None? <==> forall i | 0 <= i < |Statuses| :: Statuses[i].id != id
    ensures r.Some? ==> exists i | 0 <= i < |Statuses| ::
              Statuses[i] == r.value && r.value.id == id
              && forall j | 0 <= j < i :: Statuses[j].id != id
  {
    var r := Find(Statuses, (s: Status) => s.id == id);
    assert r.Some? ==> exists i | 0 <= i < |Statuses| ::
             Statuses[i] == r.value && r.value.id == id
             && forall j | 0 <= j < i :: Statuses[j].id != id by {
      if r.Some? {
        var i :| IsFirstMatch(Statuses, (s: Status) => s.id == id, i) && Statuses[i] == r.value;
      }
    }
    r
  }

  /** `getAuthor(id)`: the first author with that id, or `undefined`. */
  function GetAuthor(id: string): (r: Option<Author>)
    ensures r.None? <==> forall i | 0 <= i < |Authors| :: Authors[i].id != id
    ensures r.Some? ==> r.value.id == id
    ensures r.Some? ==> exists i :: IsFirstMatch(Authors, (a: Author) => a.id == id, i) && Authors[i] == r.value
  {
    Find(Authors, (a: Author) => a.id == id)
  }

  /** `listBanners(groupId)`, which `Query.banners` returns: the banners of
      that group, in the stored order; an empty array when the group has
      none. */
  function ListBanners(groupId: string): (r: seq<Banner>)
    ensures forall b :: b in r <==> b in Banners && b.groupId == groupId
    ensures Subsequence(r, Banners) && |r| <= |Banners|
    ensures r == [] <==> forall i | 0 <= i < |Banners| :: Banners[i].groupId != groupId
  {
    var r := Filter(Banners, (b: Banner) => b.groupId == groupId);
    forall b ensures b in r <==> b in Banners && b.groupId == groupId {
      if b in r {
        SubsequenceMember(r, Banners, b);
      }
      if b in Banners && b.groupId == groupId {
        assert b in multiset(Banners);
      }
    }
    FilterEmpty(Banners, (b: Banner) => b.groupId == groupId);
    r
  }

  // ---------------------------------------------------------------------
  // Resolvers
  // ---------------------------------------------------------------------

  /** `Query.status(_, {id})`: `getStatus(id) ?? null`, so `null` exactly
      when no status has that id, and otherwise the found status as it is
      stored. */
  function QueryStatus(id: string): (r: Nullable<Status>)
    ensures r.Null? <==> forall i | 0 <= i < |Statuses| :: Statuses[i].id != id
    ensures r.NonNull? ==> GetStatus(id) == Some(r.value)
  {
    match GetStatus(id)
    case Some(s) => NonNull(s)
    case None => Null
  }

  /** `Status.author(parent)`: the author whose id is the parent status's
      `authorId`, or `undefined` when there is none. */
  function AuthorOf(parent: Status): (r: Option<Author>)
    ensures r.None? <==> forall i | 0 <= i < |Authors| :: Authors[i].id != parent.authorId
    ensures r.Some? ==> r.value in Authors && r.value.id == parent.authorId
    ensures r.Some? ==> exists i :: IsFirstMatch(Authors, (a: Author) => a.id == parent.authorId, i)
                                    && Authors[i] == r.value
  {
    GetAuthor(parent.authorId)
  }

  // ---------------------------------------------------------------------
  // Properties
  // ---------------------------------------------------------------------

  /** `getStatus(id)` is the first of the statuses that a filter by the
      same id keeps. */
  lemma StatusIsFirstOfAllMatches(id: string)
    ensures GetStatus(id)
         == (var all := Filter(Statuses, (s: Status) => s.id == id);
             if all == [] then None else Some(all[0]))
  {
  }

  /** On the hardcoded data, status '1' is 'just setting up my app' by jack. */
  lemma StatusOneOnFixedData()
    ensures GetStatus("1").Some?
    ensures GetStatus("1").value.body == "just setting up my app"
    ensures GetStatus("1").value.authorId == "1"
    ensures AuthorOf(GetStatus("1").value) == Some(Author("1", "jack"))
  {
  }

  /** On the hardcoded data, group '1' holds the banners '2' and '1' in
      that order, and an unknown group holds none. */
  lemma BannersOnFixedData()
    ensures |ListBanners("1")| == 2
    ensures ListBanners("1")[0].id == "2" && ListBanners("1")[1].id == "1"
    ensures ListBanners("2") == []
  {
  }
}
