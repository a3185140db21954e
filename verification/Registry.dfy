/**
 A shared `HashMap` that several owners write without looking at who wrote before:
 inserting a key displaces whatever it held, and removing a key removes whatever it holds.
 The bridge's `routes` and a connection's `in_flight` are both used this way.
 */
module Registry {
  import opened Common

  /** `owner` inserts itself under `key`, or cleans up `key` when it is done. */
  datatype Event<K, V> = Insert(key: K, owner: V) | Remove(key: K, owner: V)

  /** The map that the events leave behind. */
  function Table<K, V>(es: seq<Event<K, V>>): map<K, V> {
    if es == [] then map[]
    else match Last(es)
      case Insert(k, v) => Table(Front(es))[k := v]
      case Remove(k, _) => Table(Front(es)) - {k}
  }

  /** The owners between their insertion and their cleanup, each with its key. */
  function Live<K, V>(es: seq<Event<K, V>>): map<V, K> {
    if es == [] then map[]
    else match Last(es)
      case Insert(k, v) => Live(Front(es))[v := k]
      case Remove(_, v) => Live(Front(es)) - {v}
  }

  /** An owner inserts only while it is not live, and cleans up only the key it inserted. */
  ghost predicate Proper<K, V>(es: seq<Event<K, V>>) {
    es == [] ||
    (Proper(Front(es)) &&
     var live := Live(Front(es));
     match Last(es)
     case Insert(_, v) => v !in live
     case Remove(k, v) => v in live && live[v] == k)
  }

  /** No key is ever inserted while another live owner uses it. */
  ghost predicate Distinct<K, V>(es: seq<Event<K, V>>) {
    es == [] ||
    (Distinct(Front(es)) && (Last(es).Insert? ==> Last(es).key !in Live(Front(es)).Values))
  }

  /** The latest event on `k` is an insertion by `v`. */
  ghost predicate LatestIsInsertBy<K, V>(es: seq<Event<K, V>>, k: K, v: V) {
    exists i :: 0 <= i < |es| && es[i] == Insert(k, v) && forall j :: i < j < |es| ==> es[j].key != k
  }

  /** Whatever the keys, an entry always belongs to an owner that is still live under that key. */
  lemma {:induction false} EntriesBelongToLiveOwners<K, V>(es: seq<Event<K, V>>)
    requires Proper(es)
    ensures forall k :: k in Table(es) ==> Table(es)[k] in Live(es) && Live(es)[Table(es)[k]] == k
  {
    if es != [] {
      EntriesBelongToLiveOwners(Front(es));
    }
  }

  /** With distinct live keys nobody loses an entry: the map is exactly the live owners. */
  lemma {:induction false} ExactWhenDistinct<K, V>(es: seq<Event<K, V>>)
    requires Proper(es) && Distinct(es)
    ensures forall v :: v in Live(es) ==> Live(es)[v] in Table(es) && Table(es)[Live(es)[v]] == v
    ensures Table(es).Keys == Live(es).Values
  {
    if es != [] {
      ExactWhenDistinct(Front(es));
      var live := Live(Front(es));
      forall v | v in Live(es)
        ensures Live(es)[v] in Table(es) && Table(es)[Live(es)[v]] == v
      {
        if v in live {
          assert live[v] in live.Values;
        }
      }
    }
    EntriesBelongToLiveOwners(es);
    forall k | k in Table(es)
      ensures k in Live(es).Values
    {
      assert Live(es)[Table(es)[k]] == k;
    }
    forall k | k in Live(es).Values
      ensures k in Table(es)
    {
      var v :| v in Live(es) && Live(es)[v] == k;
      assert Live(es)[v] in Table(es);
    }
  }

  /** In every case an owner holds its entry exactly as long as no later event touches its key. */
  lemma {:induction false} HeldUntilKeyReused<K, V>(es: seq<Event<K, V>>, k: K, v: V)
    ensures (k in Table(es) && Table(es)[k] == v) <==> LatestIsInsertBy(es, k, v)
  {
    if es != [] {
      var front, last := Front(es), Last(es);
      HeldUntilKeyReused(front, k, v);
      if last.key == k {
        if LatestIsInsertBy(es, k, v) {
          var i :| 0 <= i < |es| && es[i] == Insert(k, v) && forall j :: i < j < |es| ==> es[j].key != k;
          assert i == |es| - 1;
        }
        if last == Insert(k, v) {
          assert es[|es| - 1] == Insert(k, v);
        }
      } else {
        if LatestIsInsertBy(es, k, v) {
          var i :| 0 <= i < |es| && es[i] == Insert(k, v) && forall j :: i < j < |es| ==> es[j].key != k;
          assert front[i] == Insert(k, v);
        }
        if LatestIsInsertBy(front, k, v) {
          var i :| 0 <= i < |front| && front[i] == Insert(k, v) && forall j :: i < j < |front| ==> front[j].key != k;
          assert es[i] == Insert(k, v);
        }
      }
    }
  }
}
