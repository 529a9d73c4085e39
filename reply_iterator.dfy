/** The flat reply iterator: an index over an optional array view, with
    -1 as the end marker. The transitions are stated as functions on the
    iterator's value (`IterState`), and the class's methods are proved to
    perform exactly them. */
module ReplyIterators {
  import opened Results
  import opened RedisReply

  /** The end marker `invalid_index`. */
  const InvalidIndex: int := -1

  /** The iterator's fields: `current` (absent for the end sentinel) and
      `index`. */
  datatype IterState = IterState(current: Option<ArrayView>, index: int) {

    /** `current->size()`, and 0 without an array. */
    function Size(): nat {
      if current.Some? then ArraySize(current.value) else 0
    }

    /** The bound on reachable states: without an array the index is the
        end marker, and with one it never reaches the size (except the
        start index 0 of an empty array). It does not exclude the negative
        indices below -1 that a backward `advance` can reach; see
        `ValidDereferenceable` for what it does give `Deref`. */
    predicate Valid() {
      && (current.None? ==> index == InvalidIndex)
      && (current.Some? ==> index < Size() || index == 0)
    }

    predicate Exhausted() {
      index == InvalidIndex
    }

    /** The index names an element of the array. */
    predicate Positioned() {
      current.Some? && 0 <= index < Size()
    }
  }

  /** The array constructor: it leaves `index` without an initialiser;
      the model starts it at 0. */
  function Begin(a: ArrayView): (s: IterState)
    ensures s.Valid() && s.current == Some(a)
    ensures ArraySize(a) > 0 ==> s.Positioned() && s.index == 0
  {
    IterState(Some(a), 0)
  }

  /** The default constructor: the end sentinel. */
  function End(): (s: IterState)
    ensures s.Valid() && s.Exhausted() && s.current.None?
  {
    IterState(None, InvalidIndex)
  }

  /** `increment`. */
  function Incremented(s: IterState): (r: IterState)
    ensures r.current == s.current
    ensures s.Valid() ==> r.Valid()
    ensures s.Positioned() ==> r.Positioned() || r.Exhausted()
  {
    if s.current.None? || s.index == InvalidIndex then s
    else if s.index + 1 < s.Size() then s.(index := s.index + 1)
    else s.(index := InvalidIndex)
  }

  /** `decrement`. */
  function Decremented(s: IterState): (r: IterState)
    ensures r.current == s.current
    ensures s.Valid() ==> r.Valid()
    ensures s.Positioned() ==> r.Positioned()
  {
    if s.index != InvalidIndex && s.index >= 1 then s.(index := s.index - 1) else s
  }

  /** `advance(n)`: a backward jump that stays at or above 0 is taken; any
      other jump (including a backward one that would go below 0) is taken
      only when the target is below the size. */
  function Advanced(s: IterState, n: int): (r: IterState)
    ensures r.current == s.current
    ensures s.Valid() ==> r.Valid()
  {
    if s.index != InvalidIndex && s.current.Some? then
      if n < 0 && s.index + n >= 0 then s.(index := s.index + n)
      else if s.index + n < s.Size() then s.(index := s.index + n)
      else s
    else s
  }

  /** `equal`: the indices alone are compared. */
  predicate IterEqual(s: IterState, t: IterState): (b: bool)
    ensures s.Exhausted() && t.Exhausted() ==> b
    ensures b ==> (s.Exhausted() <==> t.Exhausted())
  {
    s.index == t.index
  }

  /** `dereference`: element `index` of the array, or the empty value at
      the end marker. Any other index fails the array's bounds assertion
      (or, without an array, `value()`), so it is excluded. */
  function Deref(s: IterState): (a: Any)
    requires s.Exhausted() || s.Positioned()
    ensures s.Exhausted() ==> a.Empty?
  {
    if s.index != InvalidIndex then ArrayAt(s.current.value, s.index) else Empty
  }

  /** `n` applications of a step. */
  function Steps(step: IterState -> IterState, s: IterState, n: nat): IterState
    decreases n
  {
    if n == 0 then s else step(Steps(step, s, n - 1))
  }

  /** A step that keeps the array and the invariant, and leaves the end
      marker alone, does so however often it is repeated. */
  lemma {:induction false} StepsPreserve(step: IterState -> IterState, s: IterState, n: nat)
    requires forall t: IterState :: step(t).current == t.current
    requires forall t: IterState :: t.Valid() ==> step(t).Valid()
    requires forall t: IterState :: t.Exhausted() ==> step(t) == t
    ensures Steps(step, s, n).current == s.current
    ensures s.Valid() ==> Steps(step, s, n).Valid()
    ensures s.Exhausted() ==> Steps(step, s, n) == s
  {
    if n > 0 {
      StepsPreserve(step, s, n - 1);
    }
  }

  class ReplyIterator {
    const current: Option<ArrayView>
    var index: int

    function State(): IterState
      reads this
    {
      IterState(current, index)
    }

    constructor FromArray(a: ArrayView)
      ensures State() == Begin(a)
    {
      current := Some(a);
      index := 0;
    }

    constructor ()
      ensures State() == End()
    {
      current := None;
      index := InvalidIndex;
    }

    method Increment()
      modifies this
      ensures State() == Incremented(old(State()))
    {
      if current.None? || index == InvalidIndex {
        return;
      }
      if index + 1 < ArraySize(current.value) {
        index := index + 1;
      } else {
        index := InvalidIndex;
      }
    }

    method Decrement()
      modifies this
      ensures State() == Decremented(old(State()))
    {
      if index != InvalidIndex && index >= 1 {
        index := index - 1;
      }
    }

    method Advance(n: int)
      modifies this
      ensures State() == Advanced(old(State()), n)
    {
      if index != InvalidIndex && current.Some? {
        if n < 0 && index + n >= 0 {
          index := index + n;
        } else {
          if index + n < ArraySize(current.value) {
            index := index + n;
          }
        }
      }
    }

    predicate Equal(other: ReplyIterator): (b: bool)
      reads this, other
      ensures b <==> IterEqual(State(), other.State())
    {
      index == other.index
    }

    function Dereference(): (a: Any)
      reads this
      requires State().Exhausted() || State().Positioned()
      ensures a == Deref(State())
    {
      if index != InvalidIndex then ArrayAt(current.value, index) else Empty
    }
  }

  // Properties of the transitions.

  /** The default iterator has no array and index -1, and dereferences to
      the empty value. */
  lemma DefaultIsEnd()
    ensures End().current.None? && End().index == -1
    ensures Deref(End()).Empty?
  {
  }

  /** `increment` steps to the next element, steps from the last element
      to the end marker, and changes nothing without an array or at the
      end marker. */
  lemma IncrementTransitions(s: IterState)
    ensures s.Positioned() && s.index + 1 < s.Size() ==> Incremented(s).index == s.index + 1
    ensures s.Positioned() && s.index == s.Size() - 1 ==> Incremented(s).Exhausted()
    ensures s.current.None? || s.Exhausted() ==> Incremented(s) == s
  {
  }

  /** `decrement` steps back from index 1 or more, and leaves index 0 and
      the end marker alone: it never revives an exhausted iterator. */
  lemma DecrementTransitions(s: IterState)
    ensures s.index >= 1 ==> Decremented(s).index == s.index - 1
    ensures s.index == 0 || s.Exhausted() ==> Decremented(s) == s
  {
  }

  /** The end marker absorbs every number of increments and decrements. */
  lemma {:induction false} ExhaustedIsAbsorbing(s: IterState, n: nat)
    requires s.Exhausted()
    ensures Steps(Incremented, s, n) == s
    ensures Steps(Decremented, s, n) == s
  {
    if n > 0 {
      ExhaustedIsAbsorbing(s, n - 1);
    }
  }

  /** A forward `advance` is all-or-nothing: it moves by n when the target
      is below the size, and otherwise leaves the index where it was. */
  lemma AdvanceForward(s: IterState, n: int)
    requires s.Positioned() && n >= 0
    ensures s.index + n < s.Size() ==> Advanced(s, n).index == s.index + n
    ensures s.index + n >= s.Size() ==> Advanced(s, n) == s
  {
  }

  /** A backward `advance` always moves by n, also below 0: from index 0,
      `advance(-1)` reaches the end marker, and `advance(-2)` reaches -2,
      which is neither an element nor the end. It is not a clamp. */
  lemma AdvanceBackward(s: IterState, n: int)
    requires s.Positioned() && n < 0
    ensures Advanced(s, n).index == s.index + n
    ensures s.index + n == -1 ==> Advanced(s, n).Exhausted()
    ensures s.index + n < -1 ==> !Advanced(s, n).Exhausted() && !Advanced(s, n).Positioned()
  {
  }

  /** `advance` on the end marker, or without an array, is a no-op. */
  lemma AdvanceExhausted(s: IterState, n: int)
    requires s.Exhausted() || s.current.None?
    ensures Advanced(s, n) == s
  {
  }

  /** `advance(1)` agrees with `increment` except on the last element, where
      `increment` reaches the end and `advance(1)` stays put. */
  lemma AdvanceOneVersusIncrement(s: IterState)
    requires s.Positioned()
    ensures s.index + 1 < s.Size() ==> Advanced(s, 1) == Incremented(s)
    ensures s.index + 1 == s.Size() ==> Advanced(s, 1) == s && Incremented(s).Exhausted()
  {
  }

  /** `equal` looks only at the index: every exhausted iterator equals the
      default iterator, and iterators over different arrays at the same
      index are equal. */
  lemma EqualityIsIndexOnly(s: IterState, t: IterState)
    ensures s.Exhausted() <==> IterEqual(s, End())
    ensures s.index == t.index ==> IterEqual(s, t)
    ensures IterEqual(s, t) ==> s.index == t.index
  {
  }

  /** Over an empty array the array constructor does not give the end
      iterator (index 0 against -1); one increment reaches it. */
  lemma EmptyArrayBegin()
    ensures ArraySize(ArrayReply([])) == 0
    ensures !IterEqual(Begin(ArrayReply([])), End())
    ensures IterEqual(Incremented(Begin(ArrayReply([]))), End())
  {
  }

  /** Starting at index 0, k < size increments visit element k, and
      dereferencing there gives `array[k]`. */
  lemma {:induction false} IncrementsVisitInOrder(a: ArrayView, k: nat)
    requires k < ArraySize(a)
    ensures Steps(Incremented, Begin(a), k) == IterState(Some(a), k)
    ensures Deref(Steps(Incremented, Begin(a), k)) == ArrayAt(a, k)
  {
    if k > 0 {
      IncrementsVisitInOrder(a, k - 1);
    }
  }

  /** Over an array of n >= 1 elements, n increments from index 0 reach a
      state equal to the default iterator, and any further increments keep
      it there. */
  lemma {:induction false} IncrementsReachEnd(a: ArrayView, extra: nat)
    requires ArraySize(a) >= 1
    ensures Steps(Incremented, Begin(a), ArraySize(a) + extra) == IterState(Some(a), InvalidIndex)
    ensures IterEqual(Steps(Incremented, Begin(a), ArraySize(a) + extra), End())
  {
    if extra == 0 {
      IncrementsVisitInOrder(a, ArraySize(a) - 1);
    } else {
      IncrementsReachEnd(a, extra - 1);
    }
  }

  /** A valid iterator over a non-empty array whose index has not gone
      below the end marker may be dereferenced: the invariant leaves only
      the end marker and the elements. */
  lemma ValidDereferenceable(s: IterState)
    requires s.Valid() && s.Size() > 0 && s.index >= InvalidIndex
    ensures s.Exhausted() || s.Positioned()
  {
  }

  /** At an element, `dereference` decodes that element. */
  lemma DerefAtElement(s: IterState)
    requires s.Positioned()
    ensures Deref(s) == ArrayAt(s.current.value, s.index)
    ensures !Deref(s).Empty? ==> Deref(s).Record() == s.current.value.element[s.index]
  {
  }
}
