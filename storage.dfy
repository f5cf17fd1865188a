/**
 * The in-memory store (`MemStorage`): a table of users and a table of content items, each with
 * its own id counter starting at 1. User lookups by username, email and subdomain compare
 * lower-cased values and return the earliest-created match.
 */
module Storage {
  import opened Wrappers
  import opened Text
  import opened Schema

  /** `a.toLowerCase() === b.toLowerCase()`. */
  predicate SameIgnoringCase(a: string, b: string)
  {
    Lower(a) == Lower(b)
  }

  /** The three looked-up user columns. */
  datatype Column = UsernameColumn | EmailColumn | SubdomainColumn

  function ColumnValue(u: User, c: Column): string
  {
    match c
    case UsernameColumn => u.username
    case EmailColumn => u.email
    case SubdomainColumn => u.subdomain
  }

  predicate Matches(u: User, c: Column, q: string)
  {
    SameIgnoringCase(ColumnValue(u, c), q)
  }

  /**
   * `Array.from(users.values()).find(u => u[c].toLowerCase() === q.toLowerCase())`: the first user,
   * in creation order, whose column equals `q` up to case; `None` iff there is none.
   */
  function Lookup(users: seq<User>, c: Column, q: string): (r: Option<User>)
    ensures r.None? <==> forall i :: 0 <= i < |users| ==> !Matches(users[i], c, q)
    ensures r.Some? ==> exists i :: 0 <= i < |users| && users[i] == r.value && Matches(users[i], c, q) &&
                          forall j :: 0 <= j < i ==> !Matches(users[j], c, q)
  {
    Find(users, u => Matches(u, c, q))
  }

  /** Lookups ignore the case of the query: asking with the lower-cased query gives the same user. */
  lemma LookupIgnoresQueryCase(users: seq<User>, c: Column, q: string)
    ensures Lookup(users, c, q) == Lookup(users, c, Lower(q))
  {
    LowerIdempotent(q);
    assert forall u :: Matches(u, c, q) <==> Matches(u, c, Lower(q));
    var r1, r2 := Lookup(users, c, q), Lookup(users, c, Lower(q));
    if r1.Some? {
      var i :| 0 <= i < |users| && users[i] == r1.value && Matches(users[i], c, q) &&
               forall j :: 0 <= j < i ==> !Matches(users[j], c, q);
      var i' :| 0 <= i' < |users| && users[i'] == r2.value && Matches(users[i'], c, Lower(q)) &&
                forall j :: 0 <= j < i' ==> !Matches(users[j], c, Lower(q));
      assert i == i';
    }
  }

  /** A user appended to the table is found only if no earlier user matches. */
  lemma LookupAppend(users: seq<User>, u: User, c: Column, q: string)
    ensures Lookup(users + [u], c, q) ==
      if Lookup(users, c, q).Some? then Lookup(users, c, q)
      else if Matches(u, c, q) then Some(u) else None
  {
    FindAppend(users, u, x => Matches(x, c, q));
  }

  /** The store's user ids: the user at position i has id i + 1. */
  predicate IdsAreIndices(users: seq<User>)
  {
    forall i :: 0 <= i < |users| ==> users[i].id == i + 1
  }

  /** `users.get(id)`. */
  function UserById(users: seq<User>, id: int): (r: Option<User>)
    requires IdsAreIndices(users)
    ensures r.Some? ==> r.value in users && r.value.id == id
    ensures r.None? <==> forall u :: u in users ==> u.id != id
  {
    if 1 <= id <= |users| then Some(users[id - 1]) else None
  }

  /**
   * `{ ...insertUser, id, createdAt, isVerified: false }`: every supplied field is kept, and only
   * the id, the creation time and the verification flag are set.
   */
  function MakeUser(id: int, u: InsertUser, now: int): (r: User)
    ensures r.id == id && r.createdAt == now && !r.isVerified
    ensures InsertUser(r.username, r.password, r.email, r.businessName, r.subdomain, r.preferredLanguage,
                       r.authProvider, r.providerId, r.displayName, r.photoURL) == u
  {
    User(id, u.username, u.password, u.email, u.businessName, u.subdomain, now, false,
         u.preferredLanguage, u.authProvider, u.providerId, u.displayName, u.photoURL)
  }

  /** `{ ...item, id, createdAt }`: every supplied field is kept; only the id and creation time are set. */
  function MakeContentItem(id: int, c: InsertContentItem, now: int): (r: ContentItem)
    ensures r.id == id && r.createdAt == now
    ensures InsertContentItem(r.userId, r.title, r.contentType, r.content, r.prompt, r.language) == c
  {
    ContentItem(id, c.userId, c.title, c.contentType, c.content, c.prompt, now, c.language)
  }

  /**
   * A `Partial<ContentItem>`: each field is absent (`None`) or present with a value. Nullable
   * columns can be patched to `null`, so their patch field holds an `Option` of its own.
   */
  datatype ContentPatch = ContentPatch(
    id: Option<int>,
    userId: Option<int>,
    title: Option<string>,
    contentType: Option<string>,
    content: Option<string>,
    prompt: Option<Option<string>>,
    createdAt: Option<int>,
    language: Option<Option<string>>)

  const EmptyPatch := ContentPatch(None, None, None, None, None, None, None, None)

  /** A spread field: the patch's value when the patch carries the key, else the stored one. */
  function Pick<T>(p: Option<T>, stored: T): (r: T)
    ensures p.Some? ==> r == p.value
    ensures p.None? ==> r == stored
  {
    if p.Some? then p.value else stored
  }

  /** `{ ...item, ...patch }`: every present patch field overrides, `id` and `userId` included. */
  function Merge(item: ContentItem, p: ContentPatch): (r: ContentItem)
    ensures r.id == Pick(p.id, item.id) && r.userId == Pick(p.userId, item.userId)
    ensures r.title == Pick(p.title, item.title) && r.contentType == Pick(p.contentType, item.contentType)
    ensures r.content == Pick(p.content, item.content) && r.prompt == Pick(p.prompt, item.prompt)
    ensures r.createdAt == Pick(p.createdAt, item.createdAt) && r.language == Pick(p.language, item.language)
  {
    ContentItem(Pick(p.id, item.id), Pick(p.userId, item.userId), Pick(p.title, item.title),
                Pick(p.contentType, item.contentType), Pick(p.content, item.content),
                Pick(p.prompt, item.prompt), Pick(p.createdAt, item.createdAt),
                Pick(p.language, item.language))
  }

  /** `{ ...p, ...q }` on patches: q's present fields win. */
  function Then(p: ContentPatch, q: ContentPatch): ContentPatch
  {
    ContentPatch(if q.id.Some? then q.id else p.id,
                 if q.userId.Some? then q.userId else p.userId,
                 if q.title.Some? then q.title else p.title,
                 if q.contentType.Some? then q.contentType else p.contentType,
                 if q.content.Some? then q.content else p.content,
                 if q.prompt.Some? then q.prompt else p.prompt,
                 if q.createdAt.Some? then q.createdAt else p.createdAt,
                 if q.language.Some? then q.language else p.language)
  }

  /** Merging is an override: the empty patch changes nothing, and two merges are one merge. */
  lemma MergeLaws(item: ContentItem, p: ContentPatch, q: ContentPatch)
    ensures Merge(item, EmptyPatch) == item
    ensures Merge(Merge(item, p), p) == Merge(item, p)
    ensures Merge(Merge(item, p), q) == Merge(item, Then(p, q))
  {
  }

  /** A patch may move an item to another owner: nothing protects `userId` (or `id`). */
  lemma MergeCanReassignOwner(item: ContentItem, other: int)
    requires other != item.userId
    ensures Merge(item, EmptyPatch.(userId := Some(other))).userId == other
    ensures Merge(item, EmptyPatch.(id := Some(item.id + 1))).id != item.id
  {
  }

  /** The stored keys among 1 .. n-1, each once, in ascending order. */
  function StoredKeys(items: map<int, ContentItem>, n: int): (ks: seq<int>)
    decreases n
    ensures forall i, j :: 0 <= i < j < |ks| ==> ks[i] < ks[j]
    ensures forall i :: 0 <= i < |ks| ==> ks[i] in items && 1 <= ks[i] < n
    ensures forall k :: k in items && 1 <= k < n ==> k in ks
  {
    if n <= 1 then [] else StoredKeys(items, n - 1) + (if n - 1 in items then [n - 1] else [])
  }

  /** The stored keys among 1 .. n-1 as a set. */
  function KeysBelow(items: map<int, ContentItem>, n: int): set<int>
  {
    set k | k in items && 1 <= k < n
  }

  /** Raising the bound from n-1 to n adds key n-1 when it is stored, and nothing else. */
  lemma KeysBelowStep(items: map<int, ContentItem>, n: int)
    requires n > 1
    ensures n - 1 !in KeysBelow(items, n - 1)
    ensures KeysBelow(items, n) == KeysBelow(items, n - 1) + (if n - 1 in items then {n - 1} else {})
  {
  }

  /** There are as many listed keys as stored keys below n: none is skipped or repeated. */
  lemma {:induction false} StoredKeysCount(items: map<int, ContentItem>, n: int)
    decreases n
    ensures |StoredKeys(items, n)| == |KeysBelow(items, n)|
  {
    if n <= 1 {
      assert KeysBelow(items, n) == {};
    } else {
      StoredKeysCount(items, n - 1);
      KeysBelowStep(items, n);
    }
  }

  /**
   * The items with keys 1 .. n-1: the iteration order of a Map filled by a counter, where a key
   * set again keeps its place. The i-th item is the one stored under the i-th stored key.
   */
  function KeyOrder(items: map<int, ContentItem>, n: int): (r: seq<ContentItem>)
    decreases n
    ensures |r| == |StoredKeys(items, n)|
    ensures forall i :: 0 <= i < |r| ==> r[i] == items[StoredKeys(items, n)[i]]
    ensures forall i :: 0 <= i < |r| ==> r[i] in items.Values
    ensures forall k :: 1 <= k < n && k in items ==> items[k] in r
  {
    if n <= 1 then [] else KeyOrder(items, n - 1) + (if n - 1 in items then [items[n - 1]] else [])
  }

  /** The listing in map order visits every stored key below n exactly once, in ascending order. */
  lemma KeyOrderVisitsEachKeyOnce(items: map<int, ContentItem>, n: int)
    ensures |KeyOrder(items, n)| == |KeysBelow(items, n)|
    ensures var ks := StoredKeys(items, n);
      (forall i, j :: 0 <= i < j < |ks| ==> ks[i] < ks[j]) &&
      (forall i :: 0 <= i < |ks| ==> KeyOrder(items, n)[i] == items[ks[i]])
  {
    StoredKeysCount(items, n);
  }

  /** Descending creation time, newest first. */
  predicate NewestFirst(s: seq<ContentItem>)
  {
    forall i, j :: 0 <= i < j < |s| ==> s[i].createdAt >= s[j].createdAt
  }

  /** Inserts x ahead of the first item no newer than it (so equal times keep their order). */
  function InsertByTime(x: ContentItem, s: seq<ContentItem>): (r: seq<ContentItem>)
    ensures multiset(r) == multiset(s) + multiset{x}
  {
    if s == [] || x.createdAt >= s[0].createdAt then [x] + s
    else
      assert s == [s[0]] + s[1..];
      [s[0]] + InsertByTime(x, s[1..])
  }

  lemma {:induction false} InsertByTimeKeepsOrder(x: ContentItem, s: seq<ContentItem>)
    requires NewestFirst(s)
    ensures NewestFirst(InsertByTime(x, s))
  {
    if s != [] && x.createdAt < s[0].createdAt {
      var rest := InsertByTime(x, s[1..]);
      InsertByTimeKeepsOrder(x, s[1..]);
      forall i | 0 <= i < |rest| ensures rest[i].createdAt <= s[0].createdAt {
        assert rest[i] in multiset(rest);
        if rest[i] != x {
          assert rest[i] in multiset(s[1..]);
          var j :| 0 <= j < |s[1..]| && s[1..][j] == rest[i];
          assert s[j + 1] == rest[i];
        }
      }
    }
  }

  /** `.sort((a, b) => b.createdAt - a.createdAt)`: a stable sort, newest first. */
  function SortNewestFirst(s: seq<ContentItem>): (r: seq<ContentItem>)
    ensures multiset(r) == multiset(s)
  {
    if s == [] then []
    else
      assert s == [s[0]] + s[1..];
      InsertByTime(s[0], SortNewestFirst(s[1..]))
  }

  /** The sort's result is in newest-first order. */
  lemma {:induction false} SortNewestFirstSorted(s: seq<ContentItem>)
    ensures NewestFirst(SortNewestFirst(s))
  {
    if s != [] {
      SortNewestFirstSorted(s[1..]);
      InsertByTimeKeepsOrder(s[0], SortNewestFirst(s[1..]));
    }
  }

  function OwnedBy(userId: int): ContentItem -> bool
  {
    (x: ContentItem) => x.userId == userId
  }

  /** The user's items in map order, before sorting. */
  function Owned(items: map<int, ContentItem>, counter: int, userId: int): seq<ContentItem>
  {
    Filter(KeyOrder(items, counter), OwnedBy(userId))
  }

  /** `getContentItemsByUserId`: filter by owner in map order, then sort newest first. */
  function ItemsOfUser(items: map<int, ContentItem>, counter: int, userId: int): (r: seq<ContentItem>)
    ensures NewestFirst(r)
    ensures multiset(r) == multiset(Owned(items, counter, userId))
  {
    SortNewestFirstSorted(Owned(items, counter, userId));
    SortNewestFirst(Owned(items, counter, userId))
  }

  /** The stored keys among 1 .. n-1 whose item the user owns. */
  function OwnedKeys(items: map<int, ContentItem>, n: int, userId: int): set<int>
  {
    set k | k in items && 1 <= k < n && items[k].userId == userId
  }

  lemma OwnedKeysStep(items: map<int, ContentItem>, n: int, userId: int)
    requires n > 1
    ensures n - 1 !in OwnedKeys(items, n - 1, userId)
    ensures OwnedKeys(items, n, userId) == OwnedKeys(items, n - 1, userId) +
      (if n - 1 in items && items[n - 1].userId == userId then {n - 1} else {})
  {
  }

  /** Raising the bound from n-1 to n adds the item under key n-1 when the user owns it. */
  lemma OwnedStep(items: map<int, ContentItem>, n: int, userId: int)
    requires n > 1
    ensures |Owned(items, n, userId)| ==
      |Owned(items, n - 1, userId)| + (if n - 1 in items && items[n - 1].userId == userId then 1 else 0)
  {
    var extra := if n - 1 in items then [items[n - 1]] else [];
    assert KeyOrder(items, n) == KeyOrder(items, n - 1) + extra;
    FilterAppend(KeyOrder(items, n - 1), extra, OwnedBy(userId));
    if n - 1 in items {
      FilterSingleton(items[n - 1], OwnedBy(userId));
    }
  }

  /** When every key is below the counter, the bound adds nothing. */
  lemma OwnedKeysAll(items: map<int, ContentItem>, counter: int, userId: int)
    requires forall k :: k in items ==> 1 <= k < counter
    ensures OwnedKeys(items, counter, userId) == set k | k in items && items[k].userId == userId
  {
  }

  /** The filtered table holds one item per owned key. */
  lemma {:induction false} OwnedCount(items: map<int, ContentItem>, n: int, userId: int)
    decreases n
    ensures |Owned(items, n, userId)| == |OwnedKeys(items, n, userId)|
  {
    if n <= 1 {
      assert OwnedKeys(items, n, userId) == {};
    } else {
      OwnedCount(items, n - 1, userId);
      OwnedStep(items, n, userId);
      OwnedKeysStep(items, n, userId);
    }
  }

  /** Every listed item is a stored item owned by the user. */
  lemma ItemsOfUserOwned(items: map<int, ContentItem>, counter: int, userId: int)
    ensures var r := ItemsOfUser(items, counter, userId);
      forall i :: 0 <= i < |r| ==> r[i].userId == userId && r[i] in items.Values
  {
    var owned := Owned(items, counter, userId);
    var r := ItemsOfUser(items, counter, userId);
    forall i | 0 <= i < |r| ensures r[i].userId == userId && r[i] in items.Values {
      assert r[i] in multiset(owned);
      var j :| 0 <= j < |owned| && owned[j] == r[i];
      assert OwnedBy(userId)(owned[j]);
    }
  }

  /** Every stored item the user owns is listed. */
  lemma ItemsOfUserComplete(items: map<int, ContentItem>, counter: int, userId: int)
    requires forall k :: k in items ==> 1 <= k < counter
    ensures var r := ItemsOfUser(items, counter, userId);
      forall k :: k in items && items[k].userId == userId ==> items[k] in r
  {
    var ordered := KeyOrder(items, counter);
    var r := ItemsOfUser(items, counter, userId);
    forall k | k in items && items[k].userId == userId ensures items[k] in r {
      var i :| 0 <= i < |ordered| && ordered[i] == items[k];
      FilterKeepsAccepted(ordered, OwnedBy(userId), i);
      assert items[k] in multiset(r);
    }
  }

  /** The listing has one entry per stored key whose item the user owns. */
  lemma ItemsOfUserCount(items: map<int, ContentItem>, counter: int, userId: int)
    requires forall k :: k in items ==> 1 <= k < counter
    ensures |ItemsOfUser(items, counter, userId)| == |set k | k in items && items[k].userId == userId|
  {
    var owned := Owned(items, counter, userId);
    var r := ItemsOfUser(items, counter, userId);
    assert |r| == |multiset(r)| == |multiset(owned)| == |owned|;
    OwnedCount(items, counter, userId);
    OwnedKeysAll(items, counter, userId);
  }

  /**
   * The listing holds exactly the stored items owned by the user, one per owned key, newest
   * first.
   */
  lemma ItemsOfUserSpec(items: map<int, ContentItem>, counter: int, userId: int)
    requires forall k :: k in items ==> 1 <= k < counter
    ensures var r := ItemsOfUser(items, counter, userId);
      && NewestFirst(r)
      && (forall i :: 0 <= i < |r| ==> r[i].userId == userId && r[i] in items.Values)
      && (forall k :: k in items && items[k].userId == userId ==> items[k] in r)
      && |r| == |set k | k in items && items[k].userId == userId|
      && multiset(r) == multiset(Owned(items, counter, userId))
  {
    SortNewestFirstSorted(Owned(items, counter, userId));
    ItemsOfUserOwned(items, counter, userId);
    ItemsOfUserComplete(items, counter, userId);
    ItemsOfUserCount(items, counter, userId);
  }

  /**
   * `MemStorage`. Users are never deleted, so the user map is kept as the sequence of users in
   * id order; content items are a map from id to item.
   */
  class MemStorage {
    var users: seq<User>
    var contentItems: map<int, ContentItem>
    var userIdCounter: int
    var contentIdCounter: int

    ghost predicate Valid()
      reads this
    {
      && userIdCounter == |users| + 1
      && IdsAreIndices(users)
      && 1 <= contentIdCounter
      && (forall k :: k in contentItems ==> 1 <= k < contentIdCounter)
    }

    constructor ()
      ensures Valid()
      ensures users == [] && contentItems == map[]
      ensures userIdCounter == 1 && contentIdCounter == 1
    {
      users := [];
      contentItems := map[];
      userIdCounter := 1;
      contentIdCounter := 1;
    }

    function GetUser(id: int): (r: Option<User>)
      reads this
      requires Valid()
      ensures r.Some? <==> 1 <= id < userIdCounter
      ensures r.Some? ==> r.value.id == id && r.value in users
    {
      UserById(users, id)
    }

    function GetUserByUsername(username: string): (r: Option<User>)
      reads this
      ensures r.Some? ==> r.value in users && SameIgnoringCase(r.value.username, username)
      ensures r.None? <==> forall u :: u in users ==> !SameIgnoringCase(u.username, username)
    {
      Lookup(users, UsernameColumn, username)
    }

    function GetUserByEmail(email: string): (r: Option<User>)
      reads this
      ensures r.Some? ==> r.value in users && SameIgnoringCase(r.value.email, email)
      ensures r.None? <==> forall u :: u in users ==> !SameIgnoringCase(u.email, email)
    {
      Lookup(users, EmailColumn, email)
    }

    function GetUserBySubdomain(subdomain: string): (r: Option<User>)
      reads this
      ensures r.Some? ==> r.value in users && SameIgnoringCase(r.value.subdomain, subdomain)
      ensures r.None? <==> forall u :: u in users ==> !SameIgnoringCase(u.subdomain, subdomain)
    {
      Lookup(users, SubdomainColumn, subdomain)
    }

    /** `getAllUsers`: every user, in id order (called by the OAuth code, absent from `MemStorage`). */
    function GetAllUsers(): (r: seq<User>)
      reads this
      requires Valid()
      ensures r == users
      ensures |r| == userIdCounter - 1
      ensures forall i :: 0 <= i < |r| ==> r[i].id == i + 1
    {
      users
    }

    /** `createUser`: takes the next id, stamps the creation time, and checks no uniqueness. */
    method CreateUser(u: InsertUser, now: int) returns (user: User)
      requires Valid()
      modifies this
      ensures Valid()
      ensures user == MakeUser(old(userIdCounter), u, now)
      ensures users == old(users) + [user]
      ensures userIdCounter == old(userIdCounter) + 1
      ensures contentItems == old(contentItems) && contentIdCounter == old(contentIdCounter)
    {
      var id := userIdCounter;
      userIdCounter := userIdCounter + 1;
      user := MakeUser(id, u, now);
      users := users + [user];
    }

    function GetContentItem(id: int): (r: Option<ContentItem>)
      reads this
      ensures r.Some? <==> id in contentItems
      ensures r.Some? ==> r.value == contentItems[id]
    {
      if id in contentItems then Some(contentItems[id]) else None
    }

    /** `getContentItemsByUserId`: exactly the user's items, newest first. */
    function GetContentItemsByUserId(userId: int): (r: seq<ContentItem>)
      reads this
      requires Valid()
      ensures NewestFirst(r)
      ensures forall i :: 0 <= i < |r| ==> r[i].userId == userId && r[i] in contentItems.Values
      ensures forall k :: k in contentItems && contentItems[k].userId == userId ==> contentItems[k] in r
      ensures |r| == |set k | k in contentItems && contentItems[k].userId == userId|
    {
      ItemsOfUserSpec(contentItems, contentIdCounter, userId);
      ItemsOfUser(contentItems, contentIdCounter, userId)
    }

    /** `createContentItem`: stores the item under a fresh id taken from the counter. */
    method CreateContentItem(c: InsertContentItem, now: int) returns (item: ContentItem)
      requires Valid()
      modifies this
      ensures Valid()
      ensures old(contentIdCounter) !in old(contentItems)
      ensures item == MakeContentItem(old(contentIdCounter), c, now)
      ensures contentItems == old(contentItems)[old(contentIdCounter) := item]
      ensures contentIdCounter == old(contentIdCounter) + 1
      ensures users == old(users) && userIdCounter == old(userIdCounter)
    {
      var id := contentIdCounter;
      contentIdCounter := contentIdCounter + 1;
      item := MakeContentItem(id, c, now);
      contentItems := contentItems[id := item];
    }

    /** `updateContentItem`: a missing id changes nothing; otherwise the merged item replaces it. */
    method UpdateContentItem(id: int, p: ContentPatch) returns (r: Option<ContentItem>)
      requires Valid()
      modifies this
      ensures Valid()
      ensures id !in old(contentItems) ==> r.None? && contentItems == old(contentItems)
      ensures id in old(contentItems) ==>
        r == Some(Merge(old(contentItems)[id], p)) && contentItems == old(contentItems)[id := r.value]
      ensures users == old(users) && userIdCounter == old(userIdCounter)
      ensures contentIdCounter == old(contentIdCounter)
    {
      if id !in contentItems {
        return None;
      }
      var updated := Merge(contentItems[id], p);
      contentItems := contentItems[id := updated];
      r := Some(updated);
    }

    /** `deleteContentItem`: reports whether the id was present, and removes it. */
    method DeleteContentItem(id: int) returns (removed: bool)
      requires Valid()
      modifies this
      ensures Valid()
      ensures removed <==> id in old(contentItems)
      ensures contentItems == old(contentItems) - {id}
      ensures users == old(users) && userIdCounter == old(userIdCounter)
      ensures contentIdCounter == old(contentIdCounter)
    {
      removed := id in contentItems;
      contentItems := contentItems - {id};
    }
  }
}
