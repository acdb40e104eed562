/** The bookmark row as the store returns it, and the id- and order-level facts about lists of them. */
module Bookmarks {

  /** One row of the `bookmarks` table; `createdAt` is the store's timestamp text. */
  datatype Bookmark = Bookmark(id: string, userId: string, title: string, url: string, createdAt: string)

  /** Some entry of `list` carries `id` (`list.some(b => b.id === id)`). */
  predicate HasId(list: seq<Bookmark>, id: string) {
    exists k :: 0 <= k < |list| && list[k].id == id
  }

  /** No two entries share an id. */
  predicate UniqueIds(list: seq<Bookmark>) {
    forall i, j :: 0 <= i < j < |list| ==> list[i].id != list[j].id
  }

  /** The ids present in `list`: the keys of the rendered cards. */
  function IdSet(list: seq<Bookmark>): set<string> {
    set k | 0 <= k < |list| :: list[k].id
  }

  lemma IdSetHasId(list: seq<Bookmark>, id: string)
    ensures id in IdSet(list) <==> HasId(list, id)
  {
    if HasId(list, id) {
      var k :| 0 <= k < |list| && list[k].id == id;
      assert list[k].id in IdSet(list);
    }
  }

  /** How many entries carry `id`. */
  function CountId(list: seq<Bookmark>, id: string): (n: nat)
    ensures n <= |list|
    ensures n == 0 <==> !HasId(list, id)
  {
    if list == [] then 0
    else
      assert forall k :: 1 <= k < |list| ==> list[1..][k - 1] == list[k];
      (if list[0].id == id then 1 else 0) + CountId(list[1..], id)
  }

  /** `a` can be obtained from `b` by dropping entries, keeping the order of the rest. */
  predicate IsSubsequence(a: seq<Bookmark>, b: seq<Bookmark>)
    decreases |b|
  {
    if a == [] then true
    else if b == [] then false
    else if a[0] == b[0] then IsSubsequence(a[1..], b[1..])
    else IsSubsequence(a, b[1..])
  }

  /** Every entry belongs to `userId`: what the store's row-level policy guarantees of a fetch. */
  predicate OwnedBy(list: seq<Bookmark>, userId: string) {
    forall k :: 0 <= k < |list| ==> list[k].userId == userId
  }

  /**
   * Newest first: `instant` reads a `createdAt` text as a point in time, the order the
   * store sorts by; its parsing is the store's and is left abstract.
   */
  ghost predicate NewestFirst(list: seq<Bookmark>, instant: string -> int) {
    forall i, j :: 0 <= i < j < |list| ==> instant(list[i].createdAt) >= instant(list[j].createdAt)
  }

  /** The noun of a count line: "bookmark", pluralised for every count but one. */
  function BookmarkNoun(n: nat): (r: string)
    ensures "bookmark" <= r
    ensures r == "bookmarks" <==> n != 1
    ensures r == "bookmark" <==> n == 1
  {
    "bookmark" + (if n != 1 then "s" else "")
  }
}
