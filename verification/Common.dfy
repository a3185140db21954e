/** Vocabulary shared by every module. */
module Common {
  /** Usable with `:-`. */
  datatype Option<+T> = None | Some(value: T) {
    predicate IsFailure() {
      None?
    }

    function PropagateFailure<U>(): Option<U>
      requires None?
    {
      None
    }

    function Extract(): T
      requires Some?
    {
      value
    }
  }

  function Min(a: int, b: int): int {
    if a < b then a else b
  }

  /** All but the last element. */
  function Front<T>(s: seq<T>): (r: seq<T>)
    requires s != []
    ensures |r| == |s| - 1
  {
    s[..|s| - 1]
  }

  /** The last element. */
  function Last<T>(s: seq<T>): T
    requires s != []
  {
    s[|s| - 1]
  }

  lemma Associate<T>(a: seq<T>, b: seq<T>, c: seq<T>)
    ensures a + (b + c) == (a + b) + c
  {
  }

  /** What comes next after the front of a queue has been written. */
  lemma NextOf<T>(written: seq<T>, queue: seq<T>, item: T)
    ensures written + [item] <= written + queue <==> queue != [] && queue[0] == item
    ensures written == written + queue <==> queue == []
  {
    var n, all := |written|, written + queue;
    assert written + [item] <= all ==> (written + [item])[n] == all[n];
    assert queue != [] && queue[0] == item ==> all[..n + 1] == written + [item];
  }
}
