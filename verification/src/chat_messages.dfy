/** The message list of a chat room, shared by the C++ and the Python chat
    examples: messages merged by ID and kept ordered by time stamp, and
    placeholder messages patched once their send finishes.

    The request-ID slot of a message is a type parameter: the C++ example
    stores a `RequestID` (0 meaning "none"), the Python one an optional
    integer. */
module ChatMessages {
  import Seqs

  datatype Message<R> = Message(
    id: string, content: string, sender: string, timeStamp: int,
    /** The send request a placeholder waits for. */
    requestId: R,
    sendFailed: bool)

  predicate Sorted<R>(ms: seq<Message<R>>) {
    forall i, j :: 0 <= i < j < |ms| ==> ms[i].timeStamp <= ms[j].timeStamp
  }

  /** Inserts `m` after every message whose time stamp is not larger. */
  function Insert<R>(m: Message<R>, ms: seq<Message<R>>): (r: seq<Message<R>>)
    ensures |r| == |ms| + 1
    ensures multiset(r) == multiset(ms) + multiset{m}
    decreases |ms|
  {
    if ms == [] then [m]
    else if m.timeStamp < ms[0].timeStamp then [m] + ms
    else
      assert ms == [ms[0]] + ms[1..];
      [ms[0]] + Insert(m, ms[1..])
  }

  /** Sorting by time stamp, stable: each message is inserted after the
      earlier ones with the same time stamp. */
  function Sort<R>(ms: seq<Message<R>>): (r: seq<Message<R>>)
    ensures |r| == |ms|
    ensures multiset(r) == multiset(ms)
    decreases |ms|
  {
    if ms == [] then []
    else
      assert ms == ms[..|ms| - 1] + [ms[|ms| - 1]];
      Insert(ms[|ms| - 1], Sort(ms[..|ms| - 1]))
  }

  lemma {:induction false} InsertSorted<R>(m: Message<R>, ms: seq<Message<R>>)
    requires Sorted(ms)
    ensures Sorted(Insert(m, ms))
    decreases |ms|
  {
    if ms != [] && m.timeStamp >= ms[0].timeStamp {
      var t := ms[1..];
      InsertSorted(m, t);
      assert forall i :: 0 <= i < |t| ==> t[i] == ms[i + 1];
      InsertBounded(m, t, ms[0].timeStamp);
      var r := Insert(m, t);
      assert Insert(m, ms) == [ms[0]] + r;
      assert forall i :: 0 < i < |r| + 1 ==> ([ms[0]] + r)[i] == r[i - 1];
    }
  }

  /** Inserting keeps a lower bound on the time stamps. */
  lemma {:induction false} InsertBounded<R>(m: Message<R>, ms: seq<Message<R>>, b: int)
    requires b <= m.timeStamp && forall i :: 0 <= i < |ms| ==> b <= ms[i].timeStamp
    ensures forall i :: 0 <= i < |ms| + 1 ==> b <= Insert(m, ms)[i].timeStamp
    decreases |ms|
  {
    if ms != [] && m.timeStamp >= ms[0].timeStamp {
      InsertBounded(m, ms[1..], b);
      assert forall i :: 0 < i < |ms| + 1 ==> Insert(m, ms)[i] == Insert(m, ms[1..])[i - 1];
    }
  }

  lemma {:induction false} SortSorted<R>(ms: seq<Message<R>>)
    ensures Sorted(Sort(ms))
    decreases |ms|
  {
    if ms != [] {
      SortSorted(ms[..|ms| - 1]);
      InsertSorted(ms[|ms| - 1], Sort(ms[..|ms| - 1]));
    }
  }

  /** The messages with time stamp `t`, in order. */
  function AtTime<R>(ms: seq<Message<R>>, t: int): seq<Message<R>>
    decreases |ms|
  {
    if ms == [] then []
    else (if ms[0].timeStamp == t then [ms[0]] else []) + AtTime(ms[1..], t)
  }

  lemma {:induction false} AtTimeAppend<R>(a: seq<Message<R>>, b: seq<Message<R>>, t: int)
    ensures AtTime(a + b, t) == AtTime(a, t) + AtTime(b, t)
    decreases |a|
  {
    if a != [] {
      assert (a + b)[1..] == a[1..] + b;
      AtTimeAppend(a[1..], b, t);
    } else {
      assert a + b == b;
    }
  }

  lemma {:induction false} AtTimeNone<R>(ms: seq<Message<R>>, t: int)
    requires forall i :: 0 <= i < |ms| ==> ms[i].timeStamp > t
    ensures AtTime(ms, t) == []
    decreases |ms|
  {
    if ms != [] {
      AtTimeNone(ms[1..], t);
    }
  }

  lemma {:induction false} InsertAtTime<R>(m: Message<R>, ms: seq<Message<R>>, t: int)
    requires Sorted(ms)
    ensures AtTime(Insert(m, ms), t) == AtTime(ms, t) + (if m.timeStamp == t then [m] else [])
    decreases |ms|
  {
    if ms == [] {
    } else if m.timeStamp < ms[0].timeStamp {
      if m.timeStamp == t {
        AtTimeNone(ms, t);
      }
      AtTimeCons(m, ms, t);
    } else {
      var t1 := ms[1..];
      assert Sorted(t1);
      InsertAtTime(m, t1, t);
      InsertPast(m, ms);
      AtTimeCons(ms[0], Insert(m, t1), t);
      AtTimeCons(ms[0], t1, t);
      assert [ms[0]] + t1 == ms;
      Seqs.AppendAssoc(if ms[0].timeStamp == t then [ms[0]] else [], AtTime(t1, t), if m.timeStamp == t then [m] else []);
    }
  }

  lemma InsertPast<R>(m: Message<R>, ms: seq<Message<R>>)
    requires ms != [] && ms[0].timeStamp <= m.timeStamp
    ensures Insert(m, ms) == [ms[0]] + Insert(m, ms[1..])
  {
  }

  lemma AtTimeCons<R>(x: Message<R>, rest: seq<Message<R>>, t: int)
    ensures AtTime([x] + rest, t) == (if x.timeStamp == t then [x] else []) + AtTime(rest, t)
  {
    assert ([x] + rest)[1..] == rest;
  }

  /** The sort is stable: for every time stamp, the messages carrying it keep
      their relative order. */
  lemma {:induction false} SortStable<R>(ms: seq<Message<R>>, t: int)
    ensures AtTime(Sort(ms), t) == AtTime(ms, t)
    decreases |ms|
  {
    if ms != [] {
      var init, last := ms[..|ms| - 1], ms[|ms| - 1];
      SortStable(init, t);
      InsertSortedAtTime(last, init, t);
      AtTimeLast(ms, t);
    }
  }

  lemma AtTimeLast<R>(ms: seq<Message<R>>, t: int)
    requires ms != []
    ensures AtTime(ms, t) == AtTime(ms[..|ms| - 1], t) + (if ms[|ms| - 1].timeStamp == t then [ms[|ms| - 1]] else [])
  {
    assert ms == ms[..|ms| - 1] + [ms[|ms| - 1]];
    AtTimeSnoc(ms[..|ms| - 1], ms[|ms| - 1], t);
  }

  lemma InsertSortedAtTime<R>(m: Message<R>, ms: seq<Message<R>>, t: int)
    ensures AtTime(Insert(m, Sort(ms)), t) == AtTime(Sort(ms), t) + (if m.timeStamp == t then [m] else [])
  {
    SortSorted(ms);
    InsertAtTime(m, Sort(ms), t);
  }

  lemma AtTimeSnoc<R>(ms: seq<Message<R>>, m: Message<R>, t: int)
    ensures AtTime(ms + [m], t) == AtTime(ms, t) + (if m.timeStamp == t then [m] else [])
  {
    AtTimeAppend(ms, [m], t);
    assert [m][1..] == [];
  }

  lemma {:induction false} InsertLast<R>(m: Message<R>, ms: seq<Message<R>>)
    requires forall i :: 0 <= i < |ms| ==> ms[i].timeStamp <= m.timeStamp
    ensures Insert(m, ms) == ms + [m]
    decreases |ms|
  {
    if ms != [] {
      InsertLast(m, ms[1..]);
      assert ms == [ms[0]] + ms[1..];
    }
  }

  /** Sorting a sorted list changes nothing. */
  lemma {:induction false} SortOfSorted<R>(ms: seq<Message<R>>)
    requires Sorted(ms)
    ensures Sort(ms) == ms
    decreases |ms|
  {
    if ms != [] {
      var init := ms[..|ms| - 1];
      SortOfSorted(init);
      InsertLast(ms[|ms| - 1], init);
      assert init + [ms[|ms| - 1]] == ms;
    }
  }

  /** The first position holding a message with ID `id`, or the length. */
  function IdIndex<R>(ms: seq<Message<R>>, id: string): (i: nat)
    ensures i <= |ms|
    ensures i < |ms| ==> ms[i].id == id
    ensures forall j :: 0 <= j < i ==> ms[j].id != id
    decreases |ms|
  {
    if ms == [] then 0
    else if ms[0].id == id then 0
    else 1 + IdIndex(ms[1..], id)
  }

  /** `addMessage` / `add_message` before sorting: the first message with the
      same ID is replaced in place, or the message is appended. */
  function ReplaceOrAppend<R>(ms: seq<Message<R>>, m: Message<R>): (r: seq<Message<R>>)
    ensures IdIndex(ms, m.id) == |ms| ==> r == ms + [m]
    ensures IdIndex(ms, m.id) < |ms| ==>
      |r| == |ms| && r[IdIndex(ms, m.id)] == m
      && forall j :: 0 <= j < |ms| && j != IdIndex(ms, m.id) ==> r[j] == ms[j]
  {
    var i := IdIndex(ms, m.id);
    if i == |ms| then ms + [m] else ms[i := m]
  }

  /** `addMessage` / `add_message`. */
  function AddMessage<R>(ms: seq<Message<R>>, m: Message<R>): (r: seq<Message<R>>)
    ensures Sorted(r)
    ensures multiset(r) == multiset(ReplaceOrAppend(ms, m))
    ensures |ms| <= |r| <= |ms| + 1
    ensures m in r
  {
    SortSorted(ReplaceOrAppend(ms, m));
    var r := Sort(ReplaceOrAppend(ms, m));
    assert m in multiset(ReplaceOrAppend(ms, m)) by {
      if IdIndex(ms, m.id) == |ms| {
        assert ReplaceOrAppend(ms, m)[|ms|] == m;
      } else {
        assert ReplaceOrAppend(ms, m)[IdIndex(ms, m.id)] == m;
      }
    }
    assert m in multiset(r);
    r
  }

  /** What a message is looked up by: its ID, or the request it waits for. */
  datatype Key<R> = ById(id: string) | ByRequest(req: R)

  predicate Matches<R(==)>(m: Message<R>, k: Key<R>) {
    match k
    case ById(id) => m.id == id
    case ByRequest(req) => m.requestId == req
  }

  /** How many messages match `k`. */
  function Count<R(==)>(ms: seq<Message<R>>, k: Key<R>): nat
    decreases |ms|
  {
    if ms == [] then 0 else (if Matches(ms[0], k) then 1 else 0) + Count(ms[1..], k)
  }

  lemma {:induction false} CountAppend<R>(a: seq<Message<R>>, b: seq<Message<R>>, k: Key<R>)
    ensures Count(a + b, k) == Count(a, k) + Count(b, k)
    decreases |a|
  {
    if a != [] {
      assert (a + b)[1..] == a[1..] + b;
      CountAppend(a[1..], b, k);
    } else {
      assert a + b == b;
    }
  }

  lemma {:induction false} CountInsert<R>(m: Message<R>, ms: seq<Message<R>>, k: Key<R>)
    ensures Count(Insert(m, ms), k) == Count(ms, k) + (if Matches(m, k) then 1 else 0)
    decreases |ms|
  {
    if ms != [] && m.timeStamp >= ms[0].timeStamp {
      CountInsert(m, ms[1..], k);
      assert ([ms[0]] + Insert(m, ms[1..]))[1..] == Insert(m, ms[1..]);
    } else if ms != [] {
      assert ([m] + ms)[1..] == ms;
    }
  }

  /** Sorting keeps how many messages match any key. */
  lemma {:induction false} CountSort<R>(ms: seq<Message<R>>, k: Key<R>)
    ensures Count(Sort(ms), k) == Count(ms, k)
    decreases |ms|
  {
    if ms != [] {
      var init, last := ms[..|ms| - 1], ms[|ms| - 1];
      CountSort(init, k);
      CountInsert(last, Sort(init), k);
      CountLast(ms, k);
    }
  }

  lemma {:induction false} CountLast<R>(ms: seq<Message<R>>, k: Key<R>)
    requires ms != []
    ensures Count(ms, k) == Count(ms[..|ms| - 1], k) + (if Matches(ms[|ms| - 1], k) then 1 else 0)
    decreases |ms|
  {
    if |ms| > 1 {
      CountLast(ms[1..], k);
      assert ms[1..][..|ms| - 2] == ms[..|ms| - 1][1..];
    }
  }

  /** Replacing one message changes the count by what the two messages contribute. */
  lemma CountUpdate<R>(ms: seq<Message<R>>, i: nat, x: Message<R>, k: Key<R>)
    requires i < |ms|
    ensures Count(ms[i := x], k) + (if Matches(ms[i], k) then 1 else 0)
            == Count(ms, k) + (if Matches(x, k) then 1 else 0)
  {
    var r := ms[i := x];
    assert ms == ms[..i] + ms[i..];
    assert r == ms[..i] + r[i..];
    CountAppend(ms[..i], ms[i..], k);
    CountAppend(ms[..i], r[i..], k);
    assert r[i..][1..] == ms[i..][1..];
  }

  /** Two positions holding the same ID mean the count is at least two. */
  lemma {:induction false} CountIdTwo<R>(ms: seq<Message<R>>, i: nat, j: nat)
    requires i < j < |ms| && ms[i].id == ms[j].id
    ensures Count(ms, ById(ms[i].id)) >= 2
    decreases |ms|
  {
    if i == 0 {
      CountAt(ms[1..], j - 1);
    } else {
      CountIdTwo(ms[1..], i - 1, j - 1);
    }
  }

  lemma {:induction false} CountAt<R>(ms: seq<Message<R>>, j: nat)
    requires j < |ms|
    ensures Count(ms, ById(ms[j].id)) >= 1
    decreases |ms|
  {
    if j > 0 {
      CountAt(ms[1..], j - 1);
    }
  }

  lemma {:induction false} CountNone<R>(ms: seq<Message<R>>, k: Key<R>)
    requires forall j :: 0 <= j < |ms| ==> !Matches(ms[j], k)
    ensures Count(ms, k) == 0
    decreases |ms|
  {
    if ms != [] {
      CountNone(ms[1..], k);
    }
  }

  lemma CountIdReplace<R>(ms: seq<Message<R>>, m: Message<R>)
    requires Count(ms, ById(m.id)) <= 1
    ensures Count(ReplaceOrAppend(ms, m), ById(m.id)) == 1
  {
    var i := IdIndex(ms, m.id);
    if i == |ms| {
      CountAppend(ms, [m], ById(m.id));
      CountNone(ms, ById(m.id));
      assert Count([m], ById(m.id)) == 1 by { assert [m][1..] == []; }
    } else {
      CountUpdate(ms, i, m, ById(m.id));
      CountNone(ms[..i], ById(m.id));
      assert ms == ms[..i] + ms[i..];
      CountAppend(ms[..i], ms[i..], ById(m.id));
    }
  }

  /** No ID is held by two messages. */
  ghost predicate UniqueIds<R>(ms: seq<Message<R>>) {
    forall id :: Count(ms, ById(id)) <= 1
  }

  /** Adding a message keeps every ID held at most once, so a room built
      from nothing by adding messages always meets the requirement of
      `AddMessageIdempotent`. */
  lemma AddMessageKeepsIdsUnique<R>(ms: seq<Message<R>>, m: Message<R>)
    requires UniqueIds(ms)
    ensures UniqueIds(AddMessage(ms, m))
    ensures Count(AddMessage(ms, m), ById(m.id)) == 1
  {
    forall id
      ensures Count(AddMessage(ms, m), ById(id)) <= 1
    {
      AddMessageCount(ms, m, id);
    }
    AddMessageCount(ms, m, m.id);
  }

  /** Adding `m` sets the count of its own ID to one, given it was at most
      one, and leaves the count of every other ID alone. */
  lemma AddMessageCount<R>(ms: seq<Message<R>>, m: Message<R>, id: string)
    requires Count(ms, ById(m.id)) <= 1
    ensures id == m.id ==> Count(AddMessage(ms, m), ById(id)) == 1
    ensures id != m.id ==> Count(AddMessage(ms, m), ById(id)) == Count(ms, ById(id))
  {
    var r := ReplaceOrAppend(ms, m);
    CountSort(r, ById(id));
    if id == m.id {
      CountIdReplace(ms, m);
    } else {
      var i := IdIndex(ms, m.id);
      if i == |ms| {
        CountAppend(ms, [m], ById(id));
        assert Count([m], ById(id)) == 0 by { assert [m][1..] == []; }
      } else {
        CountUpdate(ms, i, m, ById(id));
      }
    }
  }

  /** Adding a message whose ID is held by at most one message twice in a
      row gives the same list as adding it once. */
  lemma {:induction false} AddMessageIdempotent<R>(ms: seq<Message<R>>, m: Message<R>)
    requires Count(ms, ById(m.id)) <= 1
    ensures AddMessage(AddMessage(ms, m), m) == AddMessage(ms, m)
  {
    var r1 := AddMessage(ms, m);
    CountIdReplace(ms, m);
    CountSort(ReplaceOrAppend(ms, m), ById(m.id));
    ReplaceHeld(r1, m);
    SortOfSorted(r1);
  }

  /** Replacing the one message with `m`'s id by `m` itself changes nothing. */
  lemma ReplaceHeld<R>(ms: seq<Message<R>>, m: Message<R>)
    requires Count(ms, ById(m.id)) == 1 && m in ms
    ensures ReplaceOrAppend(ms, m) == ms
  {
    var k :| 0 <= k < |ms| && ms[k] == m;
    var i := IdIndex(ms, m.id);
    if i < k {
      CountIdTwo(ms, i, k);
    }
    assert ms[i := m] == ms;
  }

  /** The first position holding a placeholder for request `req`, or the length. */
  function PendingIndex<R(==)>(ms: seq<Message<R>>, req: R): (i: nat)
    ensures i <= |ms|
    ensures i < |ms| ==> ms[i].requestId == req
    ensures forall j :: 0 <= j < i ==> ms[j].requestId != req
    decreases |ms|
  {
    if ms == [] then 0
    else if ms[0].requestId == req then 0
    else 1 + PendingIndex(ms[1..], req)
  }

  /** A placeholder once its send finished: it takes the delivered ID and
      time stamp, stops waiting (`cleared`), and records the outcome. */
  function Delivered<R>(m: Message<R>, id: string, timeStamp: int, cleared: R, failed: bool): (p: Message<R>)
    ensures p.content == m.content && p.sender == m.sender
  {
    m.(id := id, timeStamp := timeStamp, requestId := cleared, sendFailed := failed)
  }

  /** Patches the first placeholder for `req` and re-sorts; a list without
      one is left as it is. */
  function PatchPending<R(==)>(ms: seq<Message<R>>, req: R, id: string, timeStamp: int, cleared: R, failed: bool)
    : (r: seq<Message<R>>)
    ensures PendingIndex(ms, req) == |ms| ==> r == ms
    ensures PendingIndex(ms, req) < |ms| ==>
      Sorted(r)
      && multiset(r) == multiset(ms) - multiset{ms[PendingIndex(ms, req)]}
                        + multiset{Delivered(ms[PendingIndex(ms, req)], id, timeStamp, cleared, failed)}
  {
    var i := PendingIndex(ms, req);
    if i == |ms| then ms
    else
      var patched := ms[i := Delivered(ms[i], id, timeStamp, cleared, failed)];
      SortSorted(patched);
      PatchMultiset(ms, i, Delivered(ms[i], id, timeStamp, cleared, failed));
      Sort(patched)
  }

  lemma PatchMultiset<R>(ms: seq<Message<R>>, i: nat, x: Message<R>)
    requires i < |ms|
    ensures multiset(ms[i := x]) == multiset(ms) - multiset{ms[i]} + multiset{x}
  {
    assert ms == ms[..i] + [ms[i]] + ms[i + 1..];
    assert ms[i := x] == ms[..i] + [x] + ms[i + 1..];
  }

  /** A list has a placeholder for `req` exactly when some message waits for it. */
  lemma {:induction false} PendingIndexCount<R>(ms: seq<Message<R>>, req: R)
    ensures PendingIndex(ms, req) == |ms| <==> Count(ms, ByRequest(req)) == 0
    decreases |ms|
  {
    if ms != [] {
      PendingIndexCount(ms[1..], req);
    }
  }

  /** Patching settles one placeholder: unless `cleared` is the request
      itself, one message fewer waits for `req` afterwards. */
  lemma PatchSettles<R>(ms: seq<Message<R>>, req: R, id: string, timeStamp: int, cleared: R, failed: bool)
    requires PendingIndex(ms, req) < |ms| && cleared != req
    ensures Count(PatchPending(ms, req, id, timeStamp, cleared, failed), ByRequest(req)) + 1
            == Count(ms, ByRequest(req))
  {
    var i := PendingIndex(ms, req);
    var d := Delivered(ms[i], id, timeStamp, cleared, failed);
    CountUpdate(ms, i, d, ByRequest(req));
    CountSort(ms[i := d], ByRequest(req));
  }
}
