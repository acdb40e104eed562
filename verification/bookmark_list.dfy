/**
 * The live bookmark list: a state seeded from the server snapshot, changed only by
 * snapshot replacement and by the realtime channel's INSERT and DELETE events, plus
 * the channel's three-state status and the busy flags of the rendered cards.
 */
module BookmarkList {
  import opened Wrappers
  import opened Text
  import opened Bookmarks
  import BookmarkCard

  // List transitions

  /** INSERT handler: a row whose id is already listed is dropped, a new one goes in front. */
  function OnInsert(prev: seq<Bookmark>, b: Bookmark): (r: seq<Bookmark>)
    ensures HasId(prev, b.id) ==> r == prev
    ensures !HasId(prev, b.id) ==> |r| == |prev| + 1 && r[0] == b && r[1..] == prev
    ensures HasId(r, b.id)
    ensures UniqueIds(prev) ==> UniqueIds(r)
  {
    if HasId(prev, b.id) then prev
    else
      assert ([b] + prev)[0] == b;
      [b] + prev
  }

  /** DELETE handler: `prev.filter(b => b.id !== id)`. */
  function RemoveId(prev: seq<Bookmark>, id: string): (r: seq<Bookmark>)
    ensures forall k :: 0 <= k < |r| ==> r[k].id != id
    ensures IsSubsequence(r, prev)
    ensures |r| == |prev| - CountId(prev, id)
  {
    if prev == [] then []
    else
      var rest := RemoveId(prev[1..], id);
      if prev[0].id == id then
        rest
      else
        assert ([prev[0]] + rest)[1..] == rest;
        [prev[0]] + rest
  }

  /** An entry survives the DELETE exactly when it was listed and carries another id. */
  lemma {:induction false} RemoveIdMembers(prev: seq<Bookmark>, id: string, b: Bookmark)
    ensures b in RemoveId(prev, id) <==> b in prev && b.id != id
    decreases |prev|
  {
    if prev != [] {
      RemoveIdMembers(prev[1..], id, b);
      assert b in prev <==> b == prev[0] || b in prev[1..];
    }
  }

  /** The DELETE leaves no entry with its id. */
  lemma RemoveIdRemovesAll(prev: seq<Bookmark>, id: string)
    ensures !HasId(RemoveId(prev, id), id)
  {
  }

  lemma {:induction false} SubsequenceOfItself(a: seq<Bookmark>)
    ensures IsSubsequence(a, a)
    decreases |a|
  {
    if a != [] {
      SubsequenceOfItself(a[1..]);
    }
  }

  /** A DELETE for an id that is not listed leaves the list as it is. */
  lemma RemoveAbsentId(prev: seq<Bookmark>, id: string)
    requires !HasId(prev, id)
    ensures RemoveId(prev, id) == prev
  {
    SubsequenceOfItself(prev);
    RemoveIdUnique(prev, id, prev);
  }

  /** Dropping entries cannot create a duplicate id. */
  lemma {:induction false} SubsequenceKeepsIdsUnique(a: seq<Bookmark>, b: seq<Bookmark>)
    requires IsSubsequence(a, b) && UniqueIds(b)
    ensures UniqueIds(a)
    decreases |b|
  {
    if a != [] && b != [] {
      assert UniqueIds(b[1..]) by {
        forall i, j | 0 <= i < j < |b[1..]| ensures b[1..][i].id != b[1..][j].id {
          assert b[1..][i] == b[i + 1] && b[1..][j] == b[j + 1];
        }
      }
      if a[0] == b[0] {
        SubsequenceKeepsIdsUnique(a[1..], b[1..]);
        SubsequenceMembers(a[1..], b[1..]);
        forall i, j | 0 <= i < j < |a| ensures a[i].id != a[j].id {
          if i == 0 {
            assert a[j] == a[1..][j - 1];
            var k :| 0 <= k < |b[1..]| && b[1..][k] == a[j];
            assert b[k + 1] == a[j];
          } else {
            assert a[i] == a[1..][i - 1] && a[j] == a[1..][j - 1];
          }
        }
      } else {
        SubsequenceKeepsIdsUnique(a, b[1..]);
      }
    }
  }

  /** Every entry of a subsequence is an entry of the whole. */
  lemma {:induction false} SubsequenceMembers(a: seq<Bookmark>, b: seq<Bookmark>)
    requires IsSubsequence(a, b)
    ensures forall i :: 0 <= i < |a| ==> exists k :: 0 <= k < |b| && b[k] == a[i]
    decreases |b|
  {
    if a != [] && b != [] {
      if a[0] == b[0] {
        SubsequenceMembers(a[1..], b[1..]);
        forall i | 0 <= i < |a| ensures exists k :: 0 <= k < |b| && b[k] == a[i] {
          if i == 0 {
            assert b[0] == a[0];
          } else {
            assert a[i] == a[1..][i - 1];
            var k :| 0 <= k < |b[1..]| && b[1..][k] == a[i];
            assert b[k + 1] == a[i];
          }
        }
      } else {
        SubsequenceMembers(a, b[1..]);
        forall i | 0 <= i < |a| ensures exists k :: 0 <= k < |b| && b[k] == a[i] {
          var k :| 0 <= k < |b[1..]| && b[1..][k] == a[i];
          assert b[k + 1] == a[i];
        }
      }
    }
  }

  /** A DELETE keeps the list free of duplicate ids. */
  lemma RemoveIdKeepsIdsUnique(prev: seq<Bookmark>, id: string)
    ensures UniqueIds(prev) ==> UniqueIds(RemoveId(prev, id))
  {
    if UniqueIds(prev) {
      SubsequenceKeepsIdsUnique(RemoveId(prev, id), prev);
    }
  }

  /** Greedy matching finds any subsequence without a `d` entry, so it is at most the filtered length. */
  lemma {:induction false} SubsequenceLength(a: seq<Bookmark>, b: seq<Bookmark>, d: string)
    requires IsSubsequence(a, b) && !HasId(a, d)
    ensures |a| <= |b| - CountId(b, d)
    decreases |b|
  {
    if a != [] && b != [] {
      if a[0] == b[0] {
        assert !HasId(a[1..], d) by {
          forall k | 0 <= k < |a[1..]| ensures a[1..][k].id != d {
            assert a[1..][k] == a[k + 1];
          }
        }
        SubsequenceLength(a[1..], b[1..], d);
      } else {
        SubsequenceLength(a, b[1..], d);
      }
    }
  }

  /**
   * `RemoveId` is the only order-keeping selection of `prev` that drops every `d` entry and
   * nothing else: the filter, characterised independently of how it is computed.
   */
  lemma {:induction false} RemoveIdUnique(prev: seq<Bookmark>, d: string, a: seq<Bookmark>)
    requires IsSubsequence(a, prev) && !HasId(a, d)
    requires |a| == |prev| - CountId(prev, d)
    ensures a == RemoveId(prev, d)
    decreases |prev|
  {
    if prev == [] {
    } else if a == [] {
      assert CountId(prev, d) == |prev|;
      AllId(prev, d);
    } else {
      var x := prev[0];
      var tail := prev[1..];
      if x.id == d {
        assert a[0] != x by { assert a[0].id != d by { assert 0 < |a|; } }
        RemoveIdUnique(tail, d, a);
      } else {
        if a[0] != x {
          SubsequenceLength(a, tail, d);
          assert false;
        }
        assert !HasId(a[1..], d) by {
          forall k | 0 <= k < |a[1..]| ensures a[1..][k].id != d {
            assert a[1..][k] == a[k + 1];
          }
        }
        RemoveIdUnique(tail, d, a[1..]);
        assert a == [x] + a[1..];
      }
    }
  }

  /** A list whose every entry carries `d` is emptied by removing `d`. */
  lemma {:induction false} AllId(prev: seq<Bookmark>, d: string)
    requires CountId(prev, d) == |prev|
    ensures RemoveId(prev, d) == []
  {
    if prev != [] {
      AllId(prev[1..], d);
    }
  }

  /** A change event from the realtime channel, already narrowed to the user's rows. */
  datatype ChangeEvent = Inserted(row: Bookmark) | Deleted(id: string)

  function ApplyEvent(list: seq<Bookmark>, e: ChangeEvent): (r: seq<Bookmark>)
    ensures UniqueIds(list) ==> UniqueIds(r)
    ensures e.Deleted? ==> !HasId(r, e.id)
    ensures e.Inserted? ==> HasId(r, e.row.id)
  {
    match e
    case Inserted(b) => OnInsert(list, b)
    case Deleted(d) =>
      RemoveIdKeepsIdsUnique(list, d);
      RemoveId(list, d)
  }

  /** Events are handled one at a time, in delivery order. */
  function ApplyEvents(list: seq<Bookmark>, es: seq<ChangeEvent>): seq<Bookmark>
    decreases |es|
  {
    if es == [] then list else ApplyEvents(ApplyEvent(list, es[0]), es[1..])
  }

  /** No event sequence can create two entries with one id. */
  lemma {:induction false} EventsKeepIdsUnique(list: seq<Bookmark>, es: seq<ChangeEvent>)
    requires UniqueIds(list)
    ensures UniqueIds(ApplyEvents(list, es))
    decreases |es|
  {
    if es != [] {
      EventsKeepIdsUnique(ApplyEvent(list, es[0]), es[1..]);
    }
  }

  /** Every listed entry was in the seed or arrived in an INSERT event: nothing else enters the list. */
  lemma {:induction false} EventsAddOnlyInserted(list: seq<Bookmark>, es: seq<ChangeEvent>, b: Bookmark)
    requires b in ApplyEvents(list, es)
    ensures b in list || Inserted(b) in es
    decreases |es|
  {
    if es != [] {
      var next := ApplyEvent(list, es[0]);
      EventsAddOnlyInserted(next, es[1..], b);
      if b in next && b !in list {
        match es[0]
        case Inserted(x) =>
          assert b == x;
        case Deleted(d) =>
          RemoveIdMembers(list, d, b);
      }
      if Inserted(b) in es[1..] {
        assert Inserted(b) in es;
      }
    }
  }

  /** Delivering the same event twice has the effect of delivering it once. */
  lemma DuplicateDeliveryIsHarmless(list: seq<Bookmark>, e: ChangeEvent)
    ensures ApplyEvent(ApplyEvent(list, e), e) == ApplyEvent(list, e)
  {
    if e.Deleted? {
      RemoveAbsentId(RemoveId(list, e.id), e.id);
    }
  }

  /** A fresh INSERT onto a newest-first list keeps it newest first when the row is not older than the head. */
  lemma InsertNewestKeepsOrder(prev: seq<Bookmark>, b: Bookmark, instant: string -> int)
    requires NewestFirst(prev, instant) && !HasId(prev, b.id)
    requires prev != [] ==> instant(b.createdAt) >= instant(prev[0].createdAt)
    ensures NewestFirst(OnInsert(prev, b), instant)
  {
    var r := OnInsert(prev, b);
    forall i, j | 0 <= i < j < |r| ensures instant(r[i].createdAt) >= instant(r[j].createdAt) {
      if i == 0 {
        assert r[j] == prev[j - 1];
      } else {
        assert r[i] == prev[i - 1] && r[j] == prev[j - 1];
      }
    }
  }

  /** The list is not re-sorted: an INSERT older than the head is still placed first. */
  lemma InsertOlderBreaksOrder()
    ensures var old1 := Bookmark("1", "u", "a", "https://a", "t1");
      var new2 := Bookmark("2", "u", "b", "https://b", "t2");
      var instant := (t: string) => if t == "t1" then 5 else 10;
      NewestFirst([new2], instant) && !NewestFirst(OnInsert([new2], old1), instant)
  {
    var old1 := Bookmark("1", "u", "a", "https://a", "t1");
    var new2 := Bookmark("2", "u", "b", "https://b", "t2");
    var instant := (t: string) => if t == "t1" then 5 else 10;
    assert !HasId([new2], old1.id);
    var r := OnInsert([new2], old1);
    assert r == [old1, new2];
    assert instant(r[0].createdAt) == 5 && instant(r[1].createdAt) == 10;
  }

  // Channel status

  datatype Status = Connecting | Connected | Errored

  /** The `subscribe` callback: SUBSCRIBED connects, CLOSED and CHANNEL_ERROR mark an error, anything else is ignored. */
  function OnChannelStatus(cur: Status, signal: string): (r: Status)
    ensures signal == "SUBSCRIBED" ==> r == Connected
    ensures signal == "CLOSED" || signal == "CHANNEL_ERROR" ==> r == Errored
    ensures r != cur ==> signal in {"SUBSCRIBED", "CLOSED", "CHANNEL_ERROR"}
    ensures r != Connecting || cur == Connecting
  {
    if signal == "SUBSCRIBED" then Connected
    else if signal == "CLOSED" || signal == "CHANNEL_ERROR" then Errored
    else cur
  }

  function StatusAfter(cur: Status, signals: seq<string>): Status
    decreases |signals|
  {
    if signals == [] then cur else StatusAfter(OnChannelStatus(cur, signals[0]), signals[1..])
  }

  predicate Recognised(signal: string) {
    signal in {"SUBSCRIBED", "CLOSED", "CHANNEL_ERROR"}
  }

  /** The last signal the callback acts on, if any. */
  function LastRecognised(signals: seq<string>): Option<string>
    decreases |signals|
  {
    if signals == [] then None
    else if Recognised(signals[|signals| - 1]) then Some(signals[|signals| - 1])
    else LastRecognised(signals[..|signals| - 1])
  }

  /**
   * The status is decided by the last recognised signal alone: connected after SUBSCRIBED,
   * error after CLOSED or CHANNEL_ERROR, and the starting status when none arrived.
   */
  lemma {:induction false} StatusFollowsLastSignal(cur: Status, signals: seq<string>)
    ensures LastRecognised(signals).None? ==> StatusAfter(cur, signals) == cur
    ensures LastRecognised(signals) == Some("SUBSCRIBED") ==> StatusAfter(cur, signals) == Connected
    ensures LastRecognised(signals).Some? && LastRecognised(signals) != Some("SUBSCRIBED") ==> StatusAfter(cur, signals) == Errored
    decreases |signals|
  {
    if signals != [] {
      var init := signals[..|signals| - 1];
      var last := signals[|signals| - 1];
      assert signals == init + [last];
      StatusAfterSnoc(cur, init, last);
      StatusFollowsLastSignal(cur, init);
      if Recognised(last) {
        assert LastRecognised(signals) == Some(last);
      } else {
        assert LastRecognised(signals) == LastRecognised(init);
        assert OnChannelStatus(StatusAfter(cur, init), last) == StatusAfter(cur, init);
      }
    }
  }

  lemma {:induction false} StatusAfterSnoc(cur: Status, init: seq<string>, last: string)
    ensures StatusAfter(cur, init + [last]) == OnChannelStatus(StatusAfter(cur, init), last)
    decreases |init|
  {
    if init == [] {
      assert [] + [last] == [last];
    } else {
      assert (init + [last])[1..] == init[1..] + [last];
      StatusAfterSnoc(OnChannelStatus(cur, init[0]), init[1..], last);
    }
  }

  /** Once the channel has left `connecting` it never returns there. */
  lemma {:induction false} NeverConnectingAgain(cur: Status, signals: seq<string>)
    requires cur != Connecting
    ensures StatusAfter(cur, signals) != Connecting
    decreases |signals|
  {
    if signals != [] {
      NeverConnectingAgain(OnChannelStatus(cur, signals[0]), signals[1..]);
    }
  }

  /** An errored channel that subscribes again is shown as connected. */
  lemma ErrorRecovers()
    ensures StatusAfter(Connecting, ["SUBSCRIBED", "CLOSED", "SUBSCRIBED"]) == Connected
  {
  }

  // The component

  /**
   * The component's state: the list, the channel status, and the rendered cards. React keys
   * each card by its row's id, so a card lives while its id stays listed; `mount` numbers the
   * card instance mounted for each listed id, `nextMount` is the number the next mount takes,
   * and `deleting` holds the ids whose mounted card has `isDeleting` set.
   */
  datatype View = View(bookmarks: seq<Bookmark>, status: Status, deleting: set<string>,
                       mount: map<string, nat>, nextMount: nat)

  /** Exactly the listed ids have a mounted card, numbered below `nextMount`; busy flags belong to mounted cards. */
  predicate Wf(v: View) {
    && v.mount.Keys == IdSet(v.bookmarks)
    && (forall id :: id in v.mount ==> v.mount[id] < v.nextMount)
    && v.deleting <= v.mount.Keys
  }

  /** First render: the server snapshot, `connecting`, every card freshly mounted and idle. */
  function Mount(initial: seq<Bookmark>): (r: View)
    ensures r.bookmarks == initial && r.status == Connecting && r.deleting == {} && Wf(r)
  {
    View(initial, Connecting, {}, map id | id in IdSet(initial) :: 0, 1)
  }

  datatype Input =
    | SnapshotChanged(snapshot: seq<Bookmark>)
    | Realtime(event: ChangeEvent)
    | ChannelSignal(signal: string)
    | DeleteClicked(id: string)
    | DeleteSettled(id: string, mount: nat, error: Option<string>)

  /** What a step asks of the store: a delete of row `id`, whose outcome goes back to card instance `mount`. */
  datatype Effect = NoEffect | DeleteRow(id: string, mount: nat)

  /**
   * Replace the list. Cards whose row stays keep their instance and busy flag; cards whose
   * row left unmount; rows that arrive get a newly mounted, idle card.
   */
  function WithList(v: View, list: seq<Bookmark>): (r: View)
    requires Wf(v)
    ensures r.bookmarks == list && r.status == v.status && Wf(r)
    ensures r.deleting == v.deleting * IdSet(list)
    ensures forall id :: id in r.mount && id in v.mount ==> r.mount[id] == v.mount[id]
    ensures forall id :: id in r.mount && id !in v.mount ==> r.mount[id] >= v.nextMount
    ensures r.nextMount > v.nextMount
  {
    var mount := map id | id in IdSet(list) :: if id in v.mount then v.mount[id] else v.nextMount;
    View(list, v.status, v.deleting * IdSet(list), mount, v.nextMount + 1)
  }

  function CardOf(v: View, id: string): BookmarkCard.CardState {
    BookmarkCard.CardState(id in v.deleting)
  }

  /** The card instance `m` is the one currently mounted for `id`. */
  predicate Mounted(v: View, id: string, m: nat) {
    id in v.mount && v.mount[id] == m
  }

  /**
   * One input handled by the component. A settled delete reaches the card instance that
   * issued it; when that instance has unmounted, its state update is lost.
   */
  function Step(v: View, i: Input): (r: (View, Effect))
    requires Wf(v)
    ensures Wf(r.0)
    ensures i.SnapshotChanged? ==> r.0.bookmarks == i.snapshot
    ensures i.Realtime? ==> r.0.bookmarks == ApplyEvent(v.bookmarks, i.event)
    ensures !i.SnapshotChanged? && !i.Realtime? ==> r.0.bookmarks == v.bookmarks
    ensures i.ChannelSignal? ==> r.0.status == OnChannelStatus(v.status, i.signal)
    ensures !i.ChannelSignal? ==> r.0.status == v.status
    ensures i.ChannelSignal? ==> r.0 == v.(status := r.0.status) && r.1 == NoEffect
    ensures i.SnapshotChanged? || i.Realtime? ==> r.0 == WithList(v, r.0.bookmarks) && r.1 == NoEffect
    ensures r.1.DeleteRow? ==>
      i == DeleteClicked(r.1.id) && HasId(v.bookmarks, r.1.id) && r.1.id !in v.deleting && Mounted(v, r.1.id, r.1.mount)
    ensures i.DeleteClicked? && HasId(v.bookmarks, i.id) && i.id !in v.deleting ==>
      i.id in v.mount && r.1 == DeleteRow(i.id, v.mount[i.id]) && r.0 == v.(deleting := v.deleting + {i.id})
    ensures i.DeleteClicked? && !(HasId(v.bookmarks, i.id) && i.id !in v.deleting) ==> r == (v, NoEffect)
    ensures i.DeleteSettled? && !Mounted(v, i.id, i.mount) ==> r == (v, NoEffect)
    ensures i.DeleteSettled? && Mounted(v, i.id, i.mount) && i.error.Some? ==> r == (v.(deleting := v.deleting - {i.id}), NoEffect)
    ensures i.DeleteSettled? && i.error.None? ==> r == (v, NoEffect)
  {
    match i
    case SnapshotChanged(s) => (WithList(v, s), NoEffect)
    case Realtime(e) => (WithList(v, ApplyEvent(v.bookmarks, e)), NoEffect)
    case ChannelSignal(sig) => (v.(status := OnChannelStatus(v.status, sig)), NoEffect)
    case DeleteClicked(id) =>
      IdSetHasId(v.bookmarks, id);
      if !HasId(v.bookmarks, id) then (v, NoEffect)
      else
        var (card, issued) := BookmarkCard.ClickDelete(CardOf(v, id));
        var v' := v.(deleting := if card.isDeleting then v.deleting + {id} else v.deleting - {id});
        assert !issued ==> v' == v;
        (v', if issued then DeleteRow(id, v.mount[id]) else NoEffect)
    case DeleteSettled(id, m, err) =>
      if !Mounted(v, id, m) then (v, NoEffect)
      else
        var card := BookmarkCard.DeleteSettled(CardOf(v, id), err);
        var v' := v.(deleting := if card.isDeleting then v.deleting else v.deleting - {id});
        assert err.None? ==> v' == v;
        (v', NoEffect)
  }

  function Run(v: View, inputs: seq<Input>): (r: View)
    requires Wf(v)
    ensures Wf(r)
    decreases |inputs|
  {
    if inputs == [] then v else Run(Step(v, inputs[0]).0, inputs[1..])
  }

  /** A click on a card whose delete is in flight changes nothing and issues nothing. */
  lemma ClickWhileDeletingIsNoOp(v: View, id: string)
    requires Wf(v) && id in v.deleting
    ensures Step(v, DeleteClicked(id)) == (v, NoEffect)
  {
    IdSetHasId(v.bookmarks, id);
    assert v.deleting + {id} == v.deleting;
  }

  /** A click on an idle card issues the delete for its row; the click's result settles back on that card. */
  lemma ClickThenFailedSettleRestores(v: View, id: string, message: string)
    requires Wf(v) && HasId(v.bookmarks, id) && id !in v.deleting
    ensures var (w, e) := Step(v, DeleteClicked(id));
      e.DeleteRow? && e.id == id && id in w.deleting
      && Step(w, DeleteSettled(id, e.mount, Some(message))) == (v, NoEffect)
  {
    var (w, e) := Step(v, DeleteClicked(id));
    assert w.deleting - {id} == v.deleting;
  }

  /** A failed delete clears the busy flag of the card that issued it and keeps the row listed. */
  lemma FailedDeleteKeepsRow(v: View, id: string, m: nat, message: string)
    requires Wf(v) && Mounted(v, id, m)
    ensures var r := Step(v, DeleteSettled(id, m, Some(message))).0;
      id !in r.deleting && r.bookmarks == v.bookmarks
  {
  }

  /** A successful delete leaves the card busy and the row listed, until the DELETE event arrives. */
  lemma SucceededDeleteWaitsForEvent(v: View, id: string, m: nat)
    requires Wf(v)
    ensures Step(v, DeleteSettled(id, m, None)).0 == v
  {
  }

  /**
   * A card that unmounts and mounts again is a new instance: the outcome of a request the
   * old instance issued does not reach it, so a busy remounted card stays busy.
   */
  lemma RemountIsANewCard(v: View, id: string, gone: seq<Bookmark>, back: seq<Bookmark>)
    requires Wf(v) && id in v.mount && !HasId(gone, id) && HasId(back, id)
    ensures var w := WithList(WithList(v, gone), back);
      id in w.mount && w.mount[id] != v.mount[id]
      && forall message :: Step(w, DeleteSettled(id, v.mount[id], Some(message))) == (w, NoEffect)
    ensures var w := Step(WithList(WithList(v, gone), back), DeleteClicked(id)).0;
      id in w.deleting
      && forall message :: Step(w, DeleteSettled(id, v.mount[id], Some(message))).0.deleting == w.deleting
  {
    var u := WithList(v, gone);
    IdSetHasId(gone, id);
    IdSetHasId(back, id);
    assert id !in u.mount;
  }

  /** The list after a run depends only on the list before it, not on status or card state. */
  lemma {:induction false} RunListDependsOnListOnly(v: View, w: View, inputs: seq<Input>)
    requires Wf(v) && Wf(w) && v.bookmarks == w.bookmarks
    ensures Run(v, inputs).bookmarks == Run(w, inputs).bookmarks
    decreases |inputs|
  {
    if inputs != [] {
      RunListDependsOnListOnly(Step(v, inputs[0]).0, Step(w, inputs[0]).0, inputs[1..]);
    }
  }

  /** A new snapshot discards every earlier event's effect: what follows starts from the snapshot alone. */
  lemma SnapshotDiscardsHistory(v: View, w: View, s: seq<Bookmark>, rest: seq<Input>)
    requires Wf(v) && Wf(w)
    ensures Run(v, [SnapshotChanged(s)] + rest).bookmarks == Run(w, [SnapshotChanged(s)] + rest).bookmarks
  {
    assert ([SnapshotChanged(s)] + rest)[1..] == rest;
    RunListDependsOnListOnly(Step(v, SnapshotChanged(s)).0, Step(w, SnapshotChanged(s)).0, rest);
  }

  /** Snapshots without duplicate ids keep the list free of duplicates through any run. */
  lemma {:induction false} RunKeepsIdsUnique(v: View, inputs: seq<Input>)
    requires Wf(v) && UniqueIds(v.bookmarks)
    requires forall k :: 0 <= k < |inputs| && inputs[k].SnapshotChanged? ==> UniqueIds(inputs[k].snapshot)
    ensures UniqueIds(Run(v, inputs).bookmarks)
    decreases |inputs|
  {
    if inputs != [] {
      assert forall k :: 1 <= k < |inputs| ==> inputs[1..][k - 1] == inputs[k];
      RunKeepsIdsUnique(Step(v, inputs[0]).0, inputs[1..]);
    }
  }

  /** The count footer, shown only for a non-empty list: "{n} bookmark(s) total". */
  function Footer(n: nat): (r: Option<string>)
    ensures r.None? <==> n == 0
    ensures r.Some? ==> LeadingNumber(r.value) == n
    ensures r.Some? ==> r.value == Decimal(n) + " " + BookmarkNoun(n) + " total"
  {
    if n == 0 then None
    else
      LeadingNumberOfRendered(n, " " + BookmarkNoun(n) + " total");
      assert Decimal(n) + " " + BookmarkNoun(n) + " total" == Decimal(n) + (" " + BookmarkNoun(n) + " total");
      Some(Decimal(n) + " " + BookmarkNoun(n) + " total")
  }
}
