/** The paired ("multimap") iterator and the keys-only iterator: wrappers
    that drive a flat reply iterator two steps, or one step, at a time, and
    read (key, value) string pairs or keys out of it. */
module Multimap {
  import opened Results
  import opened RedisReply
  import opened ReplyIterators

  /** A key/value pair, `std::pair<std::string, std::string>`. */
  type Pair = (string, string)

  /** The default-constructed pair that every failed dereference returns. */
  const EmptyPair: Pair := ("", "")

  // The paired iterator's transitions, on the wrapped iterator's value.

  /** `multimap_iterator::increment`: two flat increments. */
  function PairIncremented(s: IterState): (r: IterState)
    ensures r.current == s.current
    ensures s.Valid() ==> r.Valid()
  {
    Incremented(Incremented(s))
  }

  /** `multimap_iterator::decrement`: two flat decrements. */
  function PairDecremented(s: IterState): (r: IterState)
    ensures r.current == s.current
    ensures s.Valid() ==> r.Valid()
  {
    Decremented(Decremented(s))
  }

  /** What `advance(step)`'s loop computes from `op` and `step`: |step|
      calls of `increment` when step > 0, otherwise |step| calls of
      `decrement`. */
  function AdvancedBy(inc: IterState -> IterState, dec: IterState -> IterState,
                      s: IterState, step: int): (r: IterState)
    requires forall t: IterState :: inc(t).current == t.current && dec(t).current == t.current
    requires forall t: IterState :: t.Valid() ==> inc(t).Valid() && dec(t).Valid()
    requires forall t: IterState :: t.Exhausted() ==> inc(t) == t && dec(t) == t
    ensures r.current == s.current
    ensures s.Valid() ==> r.Valid()
    ensures s.Exhausted() || step == 0 ==> r == s
  {
    StepsPreserve(inc, s, if step > 0 then step else 0);
    StepsPreserve(dec, s, if step > 0 then 0 else -step);
    if step > 0 then Steps(inc, s, step) else Steps(dec, s, -step)
  }

  /** `multimap_iterator::advance`: it keeps the array and the invariant,
      and leaves the end, or any iterator advanced by 0, where it is. */
  function PairAdvanced(s: IterState, step: int): (r: IterState)
    ensures r.current == s.current
    ensures s.Valid() ==> r.Valid()
    ensures s.Exhausted() || step == 0 ==> r == s
  {
    AdvancedBy(PairIncremented, PairDecremented, s, step)
  }

  /** `multimap_key_iterator::advance`, with the same guarantees. */
  function KeyAdvanced(s: IterState, step: int): (r: IterState)
    ensures r.current == s.current
    ensures s.Valid() ==> r.Valid()
    ensures s.Exhausted() || step == 0 ==> r == s
  {
    AdvancedBy(Incremented, Decremented, s, step)
  }

  /** When `multimap_iterator::dereference` may be called: at the end
      marker, at an odd raw index, or at an element. An even negative index
      other than -1 passes the guard and fails the array's bounds
      assertion, so it is excluded. */
  predicate PairDerefAllowed(s: IterState) {
    s.Exhausted() || s.index % 2 != 0 || s.Positioned()
  }

  /** `multimap_iterator::dereference`: away from the end and at an even raw
      index, the element there as key and, on a copy stepped forward once,
      the next element as value; the empty pair if either is not a string.
      The guard `at(current) % 2 == 0` has the same truth value under C++'s
      truncating remainder as under Dafny's. */
  function PairDeref(s: IterState): (p: Pair)
    requires PairDerefAllowed(s)
    ensures s.Exhausted() || s.index % 2 != 0 ==> p == EmptyPair
  {
    if !IterEqual(s, End()) && s.index % 2 == 0 then
      var key := Deref(s).As(StringKind);
      if key.Ok? then
        var tmp := Incremented(s);
        var mapped := Deref(tmp).As(StringKind);
        if mapped.Ok? then (StringText(key.value), StringText(mapped.value))
        else EmptyPair
      else EmptyPair
    else EmptyPair
  }

  /** `multimap_key_iterator::dereference`: the bytes of the current element
      when it is a string, and "" at the end or on any other element. */
  function KeyDeref(s: IterState): (k: string)
    requires s.Exhausted() || s.Positioned()
    ensures s.Exhausted() ==> k == ""
  {
    if !IterEqual(s, End()) then
      var r := Deref(s).As(StringKind);
      if r.Ok? then StringText(r.value) else ""
    else ""
  }

  class MultimapIterator {
    const current: ReplyIterator

    constructor FromArray(a: ArrayView)
      ensures fresh(current)
      ensures current.State() == Begin(a)
    {
      current := new ReplyIterator.FromArray(a);
    }

    constructor ()
      ensures fresh(current)
      ensures current.State() == End()
    {
      current := new ReplyIterator();
    }

    method Increment()
      modifies current
      ensures current.State() == PairIncremented(old(current.State()))
    {
      current.Increment();
      current.Increment();
    }

    method Decrement()
      modifies current
      ensures current.State() == PairDecremented(old(current.State()))
    {
      current.Decrement();
      current.Decrement();
    }

    method Advance(step: int)
      modifies current
      ensures current.State() == PairAdvanced(old(current.State()), step)
    {
      var forward := step > 0;
      var left := if step < 0 then -step else step;
      ghost var start := current.State();
      while left > 0
        invariant 0 <= left <= (if step < 0 then -step else step)
        invariant forward ==> current.State() == Steps(PairIncremented, start, step - left)
        invariant !forward ==> current.State() == Steps(PairDecremented, start, -step - left)
      {
        if forward {
          Increment();
        } else {
          Decrement();
        }
        left := left - 1;
      }
    }

    predicate Equal(other: MultimapIterator): (b: bool)
      reads current, other.current
      ensures b <==> IterEqual(current.State(), other.current.State())
    {
      current.Equal(other.current)
    }

    function Dereference(): (p: Pair)
      reads current
      requires PairDerefAllowed(current.State())
      ensures p == PairDeref(current.State())
      ensures current.State().Exhausted() ==> p == EmptyPair
    {
      PairDeref(current.State())
    }
  }

  class MultimapKeyIterator {
    const current: ReplyIterator

    constructor ()
      ensures fresh(current)
      ensures current.State() == End()
    {
      current := new ReplyIterator();
    }

    constructor FromArray(a: ArrayView)
      ensures fresh(current)
      ensures current.State() == Begin(a)
    {
      current := new ReplyIterator.FromArray(a);
    }

    method Increment()
      modifies current
      ensures current.State() == Incremented(old(current.State()))
    {
      current.Increment();
    }

    method Decrement()
      modifies current
      ensures current.State() == Decremented(old(current.State()))
    {
      current.Decrement();
    }

    method Advance(step: int)
      modifies current
      ensures current.State() == KeyAdvanced(old(current.State()), step)
    {
      var forward := step > 0;
      var left := if step < 0 then -step else step;
      ghost var start := current.State();
      while left > 0
        invariant 0 <= left <= (if step < 0 then -step else step)
        invariant forward ==> current.State() == Steps(Incremented, start, step - left)
        invariant !forward ==> current.State() == Steps(Decremented, start, -step - left)
      {
        if forward {
          Increment();
        } else {
          Decrement();
        }
        left := left - 1;
      }
    }

    predicate Equal(other: MultimapKeyIterator): (b: bool)
      reads current, other.current
      ensures b <==> IterEqual(current.State(), other.current.State())
    {
      current.Equal(other.current)
    }

    function Dereference(): (k: string)
      reads current
      requires current.State().Exhausted() || current.State().Positioned()
      ensures k == KeyDeref(current.State())
      ensures current.State().Exhausted() ==> k == ""
    {
      KeyDeref(current.State())
    }
  }

  // Properties of the paired iterator.

  /** Over an array of 2n >= 2 elements, k <= n pair increments from index 0
      reach raw index 2k, or the end marker once k == n. */
  lemma {:induction false} PairWalk(a: ArrayView, n: nat, k: nat)
    requires ArraySize(a) == 2 * n && n >= 1 && k <= n
    ensures Steps(PairIncremented, Begin(a), k) == IterState(Some(a), if k < n then 2 * k else InvalidIndex)
  {
    if k > 0 {
      PairWalk(a, n, k - 1);
    }
  }

  /** Over an array of 2n >= 2 elements, n pair increments from index 0
      equal the end iterator. */
  lemma PairWalkReachesEnd(a: ArrayView, n: nat)
    requires ArraySize(a) == 2 * n && n >= 1
    ensures IterEqual(Steps(PairIncremented, Begin(a), n), End())
  {
    PairWalk(a, n, n);
  }

  /** One pair increment from the last element, or from the element before
      it, reaches the end marker; the second flat step is then a no-op. */
  lemma PairIncrementNearEnd(s: IterState)
    requires s.Positioned() && s.index >= s.Size() - 2
    ensures PairIncremented(s).Exhausted()
  {
  }

  /** A pair decrement lands index 1 on 0, keeps 0 at 0, and keeps the end
      at the end. */
  lemma PairDecrementTransitions(s: IterState)
    ensures s.index == 1 || s.index == 0 ==> PairDecremented(s).index == 0
    ensures s.index >= 2 ==> PairDecremented(s).index == s.index - 2
    ensures s.Exhausted() ==> PairDecremented(s) == s
  {
  }

  /** `advance(0)` changes nothing, on either wrapper. */
  lemma AdvanceZero(s: IterState)
    ensures PairAdvanced(s, 0) == s && KeyAdvanced(s, 0) == s
  {
  }

  /** Within range the paired `advance(step)` lands where a flat
      `advance(2 * step)` would. */
  lemma {:induction false} PairAdvanceInRange(s: IterState, step: nat)
    requires s.Positioned() && s.index + 2 * step < s.Size()
    ensures PairAdvanced(s, step) == Advanced(s, 2 * step)
    ensures Steps(PairIncremented, s, step) == s.(index := s.index + 2 * step)
  {
    if step > 0 {
      PairAdvanceInRange(s, step - 1);
    }
  }

  /** Past the range the paired `advance(step)` exhausts the iterator, where
      the flat `advance(2 * step)` would not move at all. */
  lemma {:induction false} PairAdvancePastEnd(s: IterState, step: nat)
    requires s.Positioned() && s.index + 2 * step >= s.Size() && step >= 1
    ensures PairAdvanced(s, step).Exhausted()
    ensures Advanced(s, 2 * step) == s
  {
    if s.index + 2 * (step - 1) < s.Size() {
      PairAdvanceInRange(s, step - 1);
      PairIncrementNearEnd(Steps(PairIncremented, s, step - 1));
    } else {
      PairAdvancePastEnd(s, step - 1);
      assert Steps(PairIncremented, s, step) == PairIncremented(Steps(PairIncremented, s, step - 1));
    }
  }

  /** `equal` is the wrapped iterators' equality: the index only. */
  lemma PairEqualityIsIndexOnly(x: MultimapIterator, y: MultimapIterator)
    ensures x.Equal(y) <==> x.current.index == y.current.index
  {
  }

  /** At an even element, the pair is (element i, element i+1) when both
      are strings, and the empty pair when either is not or when i is the
      last element. */
  lemma PairDerefAtEven(s: IterState)
    requires s.Positioned() && s.index % 2 == 0
    ensures var el := s.current.value.element;
            var i := s.index;
            PairDeref(s) ==
              if i + 1 < |el| && el[i].StringReply? && el[i + 1].StringReply?
              then (el[i].str, el[i + 1].str)
              else EmptyPair
  {
  }

  /** Over an array of 2n strings, the k-th pair (k < n) visited from index 0
      is (element 2k, element 2k+1), in the array's order. */
  lemma PairWalkYieldsPairs(a: ArrayView, n: nat, k: nat)
    requires ArraySize(a) == 2 * n && k < n
    requires forall j :: 0 <= j < |a.element| ==> a.element[j].StringReply?
    ensures Steps(PairIncremented, Begin(a), k) == IterState(Some(a), 2 * k)
    ensures PairDeref(Steps(PairIncremented, Begin(a), k)) == (a.element[2 * k].str, a.element[2 * k + 1].str)
  {
  }

  /** The reply ["SET", "OK"] read as one pair: the first dereference gives
      ("SET", "OK"), and one increment reaches the end. */
  lemma SetOkScenario()
    ensures var a := ArrayReply([StringReply("SET"), StringReply("OK")]);
            PairDeref(Begin(a)) == ("SET", "OK") && IterEqual(PairIncremented(Begin(a)), End())
  {
  }

  /** A reply of three strings: the second pair starts at the last element
      and dereferences to the empty pair, without reading past the end. */
  lemma OddLengthScenario(x: string, y: string, z: string)
    ensures var a := ArrayReply([StringReply(x), StringReply(y), StringReply(z)]);
            var s := PairIncremented(Begin(a));
            s.index == 2 && PairDeref(s) == EmptyPair
  {
  }

  /** The empty pair returned on failure is also what a genuine pair of
      empty strings reads as: callers cannot tell the two apart. */
  lemma EmptyPairIsAmbiguous()
    ensures PairDeref(Begin(ArrayReply([StringReply(""), StringReply("")]))) == EmptyPair
    ensures PairDeref(Begin(ArrayReply([IntegerReply(1), StringReply("")]))) == EmptyPair
  {
  }

  // Properties of the keys-only iterator.

  /** Within range a forward key `advance` lands where the flat one does. */
  lemma {:induction false} KeyAdvanceInRange(s: IterState, step: nat)
    requires s.Positioned() && s.index + step < s.Size()
    ensures Steps(Incremented, s, step) == s.(index := s.index + step)
    ensures KeyAdvanced(s, step) == Advanced(s, step)
  {
    if step > 0 {
      KeyAdvanceInRange(s, step - 1);
    }
  }

  /** A forward key `advance` past the end exhausts the iterator, unlike the
      flat all-or-nothing `advance`, which would not move. */
  lemma {:induction false} KeyAdvancePastEnd(s: IterState, step: nat)
    requires s.Positioned() && s.index + step >= s.Size() && step >= 1
    ensures KeyAdvanced(s, step).Exhausted()
    ensures Advanced(s, step) == s
  {
    if s.index + step - 1 < s.Size() {
      KeyAdvanceInRange(s, step - 1);
    } else {
      KeyAdvancePastEnd(s, step - 1);
    }
  }

  /** A backward key `advance` stops at index 0: it never reaches the end
      marker or a negative index, unlike the flat `advance`. */
  lemma {:induction false} KeyAdvanceBackward(s: IterState, back: nat)
    requires s.Positioned()
    ensures Steps(Decremented, s, back) == s.(index := if s.index >= back then s.index - back else 0)
    ensures KeyAdvanced(s, -(back as int)).Positioned()
  {
    if back > 0 {
      KeyAdvanceBackward(s, back - 1);
    }
  }

  /** The key read at an element is its bytes when it is a string, and ""
      otherwise. */
  lemma KeyDerefAtElement(s: IterState)
    requires s.Positioned()
    ensures var e := s.current.value.element[s.index];
            KeyDeref(s) == if e.StringReply? then e.str else ""
  {
  }
}
