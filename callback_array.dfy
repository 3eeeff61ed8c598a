/**
 * useCallbackArray: `count` stable forwarders, entry i calling the most
 * recently supplied callback with `(i, ...args)`. The arguments are one value
 * of type `A`; a callback's own effects are whatever its result stands for.
 */
module CallbackArray {

  /** One memoised forwarder, identified by the index it passes first. */
  datatype Bound = Bound(index: int)

  /**
   * `range(count).map(...)`. lodash's `range` with a single argument counts
   * from 0 toward `count` by steps of one, upward for a positive count and
   * downward for a negative one: `range(-3)` is `[0, -1, -2]`.
   */
  function Entries(count: int): (es: seq<Bound>)
    ensures |es| == (if count >= 0 then count else -count)
    ensures forall i :: 0 <= i < |es| ==> es[i].index == (if count >= 0 then i else -i)
  {
    if count >= 0 then seq(count, i => Bound(i)) else seq(-count, i => Bound(-i))
  }

  /** The hook's state across renders: the ref holding the latest callback and the memoised array. */
  class Callbacks<A, R> {
    var latest: (int, A) -> R
    var count: int
    /** The array `useMemo` keeps; a new array object is made only when it recomputes. */
    var entries: array<Bound>

    ghost predicate Valid()
      reads this, entries
    {
      entries[..] == Entries(count)
    }

    /** What entry `e` does when the view calls it with `args`. */
    function Invoke(e: Bound, args: A): R
      reads this
    {
      latest(e.index, args)
    }

    /** The first render: the ref starts at `callback` and the array is built for `count`. */
    constructor (count: int, callback: (int, A) -> R)
      ensures Valid() && this.count == count && latest == callback && fresh(entries)
      ensures entries.Length == (if count >= 0 then count else -count)
      ensures forall i, args :: 0 <= i < entries.Length ==>
                Invoke(entries[i], args) == callback(if count >= 0 then i else -i, args)
    {
      var built := Build(count);
      this.count := count;
      latest := callback;
      entries := built;
    }

    /** Allocates the memoised array for `count`. */
    static method Build(count: int) returns (a: array<Bound>)
      ensures fresh(a) && a[..] == Entries(count)
    {
      var es := Entries(count);
      a := new Bound[|es|](i requires 0 <= i < |es| => es[i]);
      assert a[..] == es;
    }

    /**
     * A later render: the ref is overwritten with `callback` every time. The
     * array is the very same object as before when `count` is unchanged, and
     * a newly built one when it differs. Every entry, old or new, now
     * forwards to `callback`.
     */
    method Render(count: int, callback: (int, A) -> R) returns (es: array<Bound>)
      requires Valid()
      modifies this
      ensures Valid() && this.count == count && latest == callback && es == entries
      ensures count == old(this.count) ==> entries == old(entries)
      ensures count != old(this.count) ==> fresh(entries)
      ensures es.Length == (if count >= 0 then count else -count)
      ensures forall i, args :: 0 <= i < es.Length ==>
                Invoke(es[i], args) == callback(if count >= 0 then i else -i, args)
    {
      latest := callback;
      if count != this.count {
        entries := Build(count);
        this.count := count;
      }
      es := entries;
    }
  }
}
