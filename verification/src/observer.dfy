/** The callback registry behind every channel signal (`Observer`) and the
    handle that unregisters a callback (`ObserverConnection`).

    Callbacks are values of a type parameter; each registration gets a new
    key, which stands for the list iterator the handle's teardown erases.
    A handle holds the key of its registration, or nothing once torn down,
    moved from, or default-constructed. */
module Observer {

  datatype Entry<C> = Entry(key: nat, callback: C)

  datatype Registry<C> = Registry(
    entries: seq<Entry<C>>,
    /** The key the next registration gets. */
    next: nat,
    /** The observer itself still exists; teardown after its end does nothing. */
    alive: bool)

  /** A handle: the key of the registration it tears down, if any. */
  datatype Handle = Empty | Holds(key: nat)

  function NewRegistry<C>(): Registry<C> {
    Registry([], 0, true)
  }

  /** Keys are distinct and below `next`. */
  predicate Valid<C>(r: Registry<C>) {
    (forall i :: 0 <= i < |r.entries| ==> r.entries[i].key < r.next)
    && (forall i, j :: 0 <= i < j < |r.entries| ==> r.entries[i].key != r.entries[j].key)
  }

  function Callbacks<C>(es: seq<Entry<C>>): (cs: seq<C>)
    ensures |cs| == |es|
    ensures forall i :: 0 <= i < |es| ==> cs[i] == es[i].callback
  {
    seq(|es|, i requires 0 <= i < |es| => es[i].callback)
  }

  /** `notifyAll`: the callbacks invoked, once each, in registration order
      (all with the same arguments). */
  function NotifyAll<C>(r: Registry<C>): (cs: seq<C>)
    ensures |cs| == |r.entries|
    ensures forall i :: 0 <= i < |r.entries| ==> cs[i] == r.entries[i].callback
  {
    Callbacks(r.entries)
  }

  /** `registerCallback`: appends `cb` and returns the handle for it. */
  function Register<C>(r: Registry<C>, cb: C): (res: (Registry<C>, Handle))
    ensures res.0.entries == r.entries + [Entry(r.next, cb)]
    ensures res.1 == Holds(r.next) && res.0.next == r.next + 1 && res.0.alive == r.alive
    ensures Valid(r) ==> Valid(res.0)
  {
    (r.(entries := r.entries + [Entry(r.next, cb)], next := r.next + 1), Holds(r.next))
  }

  /** The entries other than the one with key `k`, in order. */
  function WithoutKey<C>(es: seq<Entry<C>>, k: nat): (rs: seq<Entry<C>>)
    ensures |rs| <= |es|
    ensures forall i :: 0 <= i < |rs| ==> rs[i].key != k
  {
    if es == [] then []
    else if es[0].key == k then WithoutKey(es[1..], k)
    else [es[0]] + WithoutKey(es[1..], k)
  }

  /** The teardown a handle runs: erase its entry, unless the observer is gone. */
  function Teardown<C>(r: Registry<C>, k: nat): (res: Registry<C>)
    ensures !r.alive ==> res == r
    ensures r.alive ==> res.entries == WithoutKey(r.entries, k)
    ensures res.next == r.next && res.alive == r.alive
  {
    if r.alive then r.(entries := WithoutKey(r.entries, k)) else r
  }

  /** `disconnect` (and the destructor): run the teardown if there is one,
      then clear it. */
  function Disconnect<C>(r: Registry<C>, h: Handle): (res: (Registry<C>, Handle))
    ensures res.1 == Empty
    ensures h.Empty? ==> res.0 == r
    ensures h.Holds? ==> res.0 == Teardown(r, h.key)
  {
    match h
    case Empty => (r, Empty)
    case Holds(k) => (Teardown(r, k), Empty)
  }

  /** Move-assignment `target = std::move(source)`: the target first tears
      down its own registration, then takes over the source's; the source is
      left empty. Returns the registry, the new target and the new source. */
  function MoveAssign<C>(r: Registry<C>, target: Handle, source: Handle): (res: (Registry<C>, Handle, Handle))
    ensures res.0 == Disconnect(r, target).0
    ensures res.1 == source && res.2 == Empty
  {
    var (r1, cleared) := Disconnect(r, target);
    (r1, source, cleared)
  }

  /** The observer ends; later teardowns do nothing. */
  function Destroy<C>(r: Registry<C>): (res: Registry<C>)
    ensures !res.alive && res.entries == r.entries
  {
    r.(alive := false)
  }

  /** With distinct keys, removing a key drops exactly that one entry. */
  lemma {:induction false} WithoutKeyAt<C>(es: seq<Entry<C>>, i: nat)
    requires i < |es|
    requires forall a, b :: 0 <= a < b < |es| ==> es[a].key != es[b].key
    ensures WithoutKey(es, es[i].key) == es[..i] + es[i + 1..]
    decreases |es|
  {
    var k := es[i].key;
    if i == 0 {
      WithoutKeyAbsent(es[1..], k);
      assert es[..0] + es[1..] == es[1..];
    } else {
      var t := es[1..];
      assert t[i - 1] == es[i];
      assert forall a, b :: 0 <= a < b < |t| ==> t[a].key != t[b].key by {
        forall a, b | 0 <= a < b < |t| ensures t[a].key != t[b].key {
          assert t[a] == es[a + 1] && t[b] == es[b + 1];
        }
      }
      WithoutKeyAt(t, i - 1);
      assert es[0].key != k;
      assert WithoutKey(es, k) == [es[0]] + WithoutKey(t, k);
      assert [es[0]] + (t[..i - 1] + t[i..]) == es[..i] + es[i + 1..];
    }
  }

  /** Removing a key no entry has changes nothing. */
  lemma {:induction false} WithoutKeyAbsent<C>(es: seq<Entry<C>>, k: nat)
    requires forall a :: 0 <= a < |es| ==> es[a].key != k
    ensures WithoutKey(es, k) == es
    decreases |es|
  {
    if es != [] {
      WithoutKeyAbsent(es[1..], k);
      assert [es[0]] + es[1..] == es;
    }
  }

  /** `disconnect` removes exactly that handle's callback: the others are
      still notified, in the same order. */
  lemma DisconnectRemovesOne<C>(r: Registry<C>, i: nat)
    requires Valid(r) && r.alive && i < |r.entries|
    ensures NotifyAll(Disconnect(r, Holds(r.entries[i].key)).0)
      == NotifyAll(r)[..i] + NotifyAll(r)[i + 1..]
  {
    WithoutKeyAt(r.entries, i);
    var cs := NotifyAll(r);
    var ds := NotifyAll(Disconnect(r, Holds(r.entries[i].key)).0);
    assert |ds| == |cs[..i] + cs[i + 1..]|;
    forall j | 0 <= j < |ds| ensures ds[j] == (cs[..i] + cs[i + 1..])[j] {
      if j < i {
        assert ds[j] == r.entries[j].callback;
      } else {
        assert ds[j] == r.entries[j + 1].callback;
      }
    }
  }

  /** Disconnecting twice is the same as disconnecting once. */
  lemma DisconnectIdempotent<C>(r: Registry<C>, h: Handle)
    ensures Disconnect(Disconnect(r, h).0, Disconnect(r, h).1) == Disconnect(r, h)
  {
  }

  /** After the observer is gone, no teardown changes anything. */
  lemma DestroyedIgnoresTeardown<C>(r: Registry<C>, h: Handle)
    ensures Disconnect(Destroy(r), h).0 == Destroy(r)
  {
  }

  /** One callback: it is notified. */
  lemma ScenarioOneCallback<C>(c1: C)
    ensures var (r, _) := Register(NewRegistry(), c1); NotifyAll(r) == [c1]
  {
  }

  /** Three callbacks, the second disconnected: the first and third are notified. */
  lemma ScenarioDisconnectMiddle<C>(c1: C, c2: C, c3: C)
    ensures
      var (r1, h1) := Register(NewRegistry(), c1);
      var (r2, h2) := Register(r1, c2);
      var (r3, h3) := Register(r2, c3);
      NotifyAll(Disconnect(r3, h2).0) == [c1, c3]
  {
    var (r1, h1) := Register(NewRegistry(), c1);
    var (r2, h2) := Register(r1, c2);
    var (r3, h3) := Register(r2, c3);
    DisconnectRemovesOne(r3, 1);
  }

  /** `connection2 = registerCallback(c3)`: the new callback is registered
      first, then the handle's old registration is torn down. */
  lemma ScenarioReassign<C>(c1: C, c2: C, c3: C)
    ensures
      var (r1, h1) := Register(NewRegistry(), c1);
      var (r2, h2) := Register(r1, c2);
      var (r3, h3) := Register(r2, c3);
      var (r4, h2n, _) := MoveAssign(r3, h2, h3);
      NotifyAll(r4) == [c1, c3] && h2n == Holds(2)
  {
    var (r1, h1) := Register(NewRegistry(), c1);
    var (r2, h2) := Register(r1, c2);
    var (r3, h3) := Register(r2, c3);
    DisconnectRemovesOne(r3, 1);
  }

  /** `connection2 = std::move(connection1)`: the second callback is gone, the
      first is still registered and now owned by `connection2`. */
  lemma ScenarioMove<C>(c1: C, c2: C)
    ensures
      var (r1, h1) := Register(NewRegistry(), c1);
      var (r2, h2) := Register(r1, c2);
      var (r3, h2n, h1n) := MoveAssign(r2, h2, h1);
      NotifyAll(r3) == [c1] && h2n == h1 && h1n == Empty
  {
    var (r1, h1) := Register(NewRegistry(), c1);
    var (r2, h2) := Register(r1, c2);
    DisconnectRemovesOne(r2, 1);
  }
}
