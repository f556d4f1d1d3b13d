/** The signal registry of signal/handlers.go: a map from key to the ordered
    list of handlers bound to it, registration and dispatch. */
module Registry {
  import opened Signals
  import opened Seqs

  /** Registry key. Wildcard replaces the package's anySignal sentinel and can
      never be mistaken for a real signal. */
  datatype Key = Wildcard | Specific(sig: Signal)

  /** A HandlerFunc, named by an opaque id, or the package's own
      handleTerminationSignals method bound by NewHandlers. */
  datatype HandlerRef = Client(id: nat) | TerminationHandler

  type Table = map<Key, seq<HandlerRef>>

  /** The list stored under k; an absent key reads as Go's nil slice. */
  function Lookup(t: Table, k: Key): seq<HandlerRef> {
    if k in t then t[k] else []
  }

  /** How often a non-empty signal list names k; it never names the wildcard. */
  function Occurrences(sigs: seq<Signal>, k: Key): nat {
    match k
    case Wildcard => 0
    case Specific(s) => Count(sigs, s)
  }

  /** The keys a non-empty signal list names. */
  function KeysOf(sigs: seq<Signal>): set<Key> {
    set s | s in sigs :: Specific(s)
  }

  lemma KeysOfCons(sigs: seq<Signal>)
    requires |sigs| > 0
    ensures KeysOf(sigs) == {Specific(sigs[0])} + KeysOf(sigs[1..])
  {
    assert forall s :: s in sigs <==> s == sigs[0] || s in sigs[1..];
  }

  /** Appending h under the first named key, then under the rest, is
      appending it under each key once per time the key is named. */
  lemma AppendStep(t: Table, h: HandlerRef, sigs: seq<Signal>, r: Table, k: Key)
    requires |sigs| > 0
    requires
      var k0 := Specific(sigs[0]);
      Lookup(r, k) == Lookup(t[k0 := Lookup(t, k0) + [h]], k) + Repeat(h, Occurrences(sigs[1..], k))
    ensures Lookup(r, k) == Lookup(t, k) + Repeat(h, Occurrences(sigs, k))
  {
    if k == Specific(sigs[0]) {
      assert Occurrences(sigs, k) == 1 + Occurrences(sigs[1..], k);
      assert Lookup(t, k) + [h] + Repeat(h, Occurrences(sigs[1..], k))
          == Lookup(t, k) + Repeat(h, Occurrences(sigs, k));
    } else {
      assert Occurrences(sigs, k) == Occurrences(sigs[1..], k);
    }
  }

  /** The loop over the named signals: each one in turn gets h appended to its
      list, the list being created when the key is absent. */
  function AppendToEach(t: Table, h: HandlerRef, sigs: seq<Signal>): (r: Table)
    ensures r.Keys == t.Keys + KeysOf(sigs)
    ensures forall k :: Lookup(r, k) == Lookup(t, k) + Repeat(h, Occurrences(sigs, k))
    decreases |sigs|
  {
    if |sigs| == 0 then t
    else
      var k0 := Specific(sigs[0]);
      var r := AppendToEach(t[k0 := Lookup(t, k0) + [h]], h, sigs[1..]);
      KeysOfCons(sigs);
      assert forall k :: Lookup(r, k) == Lookup(t, k) + Repeat(h, Occurrences(sigs, k)) by {
        forall k
          ensures Lookup(r, k) == Lookup(t, k) + Repeat(h, Occurrences(sigs, k))
        {
          AppendStep(t, h, sigs, r, k);
        }
      }
      r
  }

  /** RegisterSignalHandler on the table: no signals appends h to the wildcard
      list; otherwise h is appended to the list of every named signal, once per
      time it is named. Other lists stay as they were, and none shrinks. */
  function Register(t: Table, h: HandlerRef, sigs: seq<Signal>): (r: Table)
    ensures |sigs| == 0 ==> r.Keys == t.Keys + {Wildcard}
    ensures |sigs| == 0 ==> Lookup(r, Wildcard) == Lookup(t, Wildcard) + [h]
    ensures |sigs| == 0 ==> forall k :: k != Wildcard ==> Lookup(r, k) == Lookup(t, k)
    ensures |sigs| > 0 ==> r.Keys == t.Keys + KeysOf(sigs)
    ensures |sigs| > 0 ==> forall k :: Lookup(r, k) == Lookup(t, k) + Repeat(h, Occurrences(sigs, k))
    ensures forall k :: Lookup(t, k) <= Lookup(r, k)
    ensures t.Keys <= r.Keys
  {
    if |sigs| == 0 then t[Wildcard := Lookup(t, Wildcard) + [h]]
    else AppendToEach(t, h, sigs)
  }

  /** One pass of the Go `range` over the map, visiting keys in the given
      order and running the handlers of every key equal to the target. */
  function Scan(t: Table, order: seq<Key>, target: Signal): (r: seq<HandlerRef>)
    ensures Specific(target) !in order ==> r == []
    ensures forall x :: x in r ==> x in Lookup(t, Specific(target))
    decreases |order|
  {
    if |order| == 0 then []
    else (if order[0] == Specific(target) then Lookup(t, order[0]) else []) + Scan(t, order[1..], target)
  }

  /** order is one of the orders in which Go may iterate over t: every key of
      t exactly once. */
  ghost predicate Enumerates(order: seq<Key>, t: Table) {
    && (forall k :: k in t <==> k in order)
    && (forall i, j :: 0 <= i < j < |order| ==> order[i] != order[j])
  }

  lemma {:induction false} ScanFindsOnlyTarget(t: Table, order: seq<Key>, target: Signal)
    requires forall i, j :: 0 <= i < j < |order| ==> order[i] != order[j]
    ensures Scan(t, order, target) == if Specific(target) in order then Lookup(t, Specific(target)) else []
    decreases |order|
  {
    if |order| > 0 {
      var rest := order[1..];
      assert forall i, j :: 0 <= i < j < |rest| ==> rest[i] != rest[j] by {
        forall i, j | 0 <= i < j < |rest|
          ensures rest[i] != rest[j]
        {
          assert rest[i] == order[i + 1] && rest[j] == order[j + 1];
        }
      }
      ScanFindsOnlyTarget(t, rest, target);
      if order[0] == Specific(target) {
        assert Specific(target) !in rest;
      } else {
        assert Specific(target) in order <==> Specific(target) in rest;
      }
    }
  }

  /** handleSignal's choice of handlers: the wildcard list, then the target's
      list. The explicit lookup agrees with the source's scan of the map in
      every iteration order Go may choose. */
  function Dispatch(t: Table, target: Signal): (r: seq<HandlerRef>)
    ensures forall order :: Enumerates(order, t) ==> r == Lookup(t, Wildcard) + Scan(t, order, target)
  {
    assert forall order :: Enumerates(order, t) ==> Scan(t, order, target) == Lookup(t, Specific(target)) by {
      forall order | Enumerates(order, t)
        ensures Scan(t, order, target) == Lookup(t, Specific(target))
      {
        ScanFindsOnlyTarget(t, order, target);
      }
    }
    Lookup(t, Wildcard) + Lookup(t, Specific(target))
  }
}
