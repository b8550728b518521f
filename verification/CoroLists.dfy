/**
 The four lists a scheduler keeps its coroutines in, as values: every coroutine of the
 scheduler is in exactly one of them. The pointer structure behind them is in IntrusiveList
 and Scheduler; the protocols over several schedulers are in Parking.
 */
module CoroLists {
  import opened Sequences

  datatype Place = Free | Yielding | Suspended | Resumed

  datatype Lists<T(==)> = Lists(free: seq<T>, yielding: seq<T>, suspended: seq<T>, resumed: seq<T>)
  {
    function At(p: Place): seq<T> {
      match p
      case Free => free
      case Yielding => yielding
      case Suspended => suspended
      case Resumed => resumed
    }

    ghost predicate Has(x: T) {
      exists p :: x in At(p)
    }

    /** Every coroutine is in at most one list, and there once. */
    ghost predicate Valid() {
      && (forall p :: NoDup(At(p)))
      && (forall p, q, x | x in At(p) && x in At(q) :: p == q)
    }

    /** What every `moveTo` does: `x` is unlinked from the list it is in and inserted at the front
        of the list `p`. */
    function Move(x: T, p: Place): Lists<T> {
      Lists(if p == Free then [x] + Without(free, x) else Without(free, x),
            if p == Yielding then [x] + Without(yielding, x) else Without(yielding, x),
            if p == Suspended then [x] + Without(suspended, x) else Without(suspended, x),
            if p == Resumed then [x] + Without(resumed, x) else Without(resumed, x))
    }

    /** Moving a coroutine keeps every coroutine in exactly one list. */
    lemma MoveKeepsValid(x: T, p: Place)
      requires Valid()
      ensures Move(x, p).Valid()
      ensures x in Move(x, p).At(p)
      ensures forall q, y | y in Move(x, p).At(q) :: if y == x then q == p else y in At(q)
      ensures forall q, y | y in At(q) && y != x :: y in Move(x, p).At(q)
    {
      var l := Move(x, p);
      forall q
        ensures NoDup(l.At(q))
        ensures forall y | y in l.At(q) :: if y == x then q == p else y in At(q)
        ensures forall y | y in At(q) && y != x :: y in l.At(q)
      {
        WithoutElems(At(q), x);
        assert l.At(q) == if q == p then [x] + Without(At(q), x) else Without(At(q), x);
      }
    }

    /** The lists hold exactly the coroutines `all`, each once. */
    ghost predicate Partition(all: seq<T>) {
      && Valid()
      && (forall x | x in all :: Has(x))
      && (forall p, x | x in At(p) :: x in all)
    }

    lemma MoveKeepsPartition(x: T, p: Place, all: seq<T>)
      requires Partition(all) && x in all
      ensures Move(x, p).Partition(all)
    {
      MoveKeepsValid(x, p);
      var l := Move(x, p);
      forall y | y in all ensures l.Has(y) {
        var q :| y in At(q);
        if y == x { assert y in l.At(p); } else { assert y in l.At(q); }
      }
      forall q, y | y in l.At(q) ensures y in all { }
    }
  }
}
