/** The bounded log buffer: a first-in first-out list that drops its oldest entry once it holds
    `capacity` entries (`EvictingList` in internal/logs/list.go). The mutex is not modelled. */
module Logs {

  /** The contents after adding `value` to `data` under `capacity`: when the list is full the
      front is dropped first; a capacity of zero or less never evicts. */
  function Added<T>(data: seq<T>, capacity: int, value: T): (r: seq<T>)
    ensures |r| >= 1 && r[|r| - 1] == value
    ensures 0 < capacity && |data| <= capacity ==> |r| <= capacity
    ensures 0 < capacity && |data| == capacity ==> r[..|r| - 1] == data[1..]
    ensures capacity <= 0 || |data| < capacity ==> r[..|r| - 1] == data
  {
    if capacity > 0 && |data| == capacity then data[1..] + [value] else data + [value]
  }

  /** The contents after adding every element of `history`, in order. */
  function AddedAll<T>(data: seq<T>, capacity: int, history: seq<T>): seq<T>
    decreases |history|
  {
    if history == [] then data
    else AddedAll(Added(data, capacity, history[0]), capacity, history[1..])
  }

  /** The last `capacity` elements of `all`, or all of them when there are fewer. */
  function Newest<T>(all: seq<T>, capacity: nat): seq<T>
  {
    if |all| <= capacity then all else all[|all| - capacity..]
  }

  /** Whatever is added, a list with a positive capacity holds the last `capacity` entries of
      everything it has been given, oldest first. */
  lemma {:induction false} AddedAllKeepsNewest<T>(data: seq<T>, capacity: int, history: seq<T>)
    requires 0 < capacity && |data| <= capacity
    ensures AddedAll(data, capacity, history) == Newest(data + history, capacity)
    decreases |history|
  {
    if history != [] {
      var next := Added(data, capacity, history[0]);
      AddedAllKeepsNewest(next, capacity, history[1..]);
      if |data| == capacity {
        NewestDropsFront(data, capacity, history);
      } else {
        assert next + history[1..] == data + history;
      }
    }
  }

  /** Evicting the front of a full list does not change which entries are the newest. */
  lemma NewestDropsFront<T>(data: seq<T>, capacity: nat, history: seq<T>)
    requires 0 < capacity == |data| && history != []
    ensures Newest(data[1..] + [history[0]] + history[1..], capacity) == Newest(data + history, capacity)
  {
    var all := data + history;
    assert data[1..] + [history[0]] + history[1..] == all[1..];
    assert all[1..][|all| - 1 - capacity..] == all[|all| - capacity..];
  }

  /** With no positive capacity every entry is kept. */
  lemma {:induction false} AddedAllUnbounded<T>(data: seq<T>, capacity: int, history: seq<T>)
    requires capacity <= 0
    ensures AddedAll(data, capacity, history) == data + history
    decreases |history|
  {
    if history != [] {
      AddedAllUnbounded(data + [history[0]], capacity, history[1..]);
      assert data + [history[0]] + history[1..] == data + history;
    }
  }

  /** The scenario of the package's unit test: capacity five, then 1, 2, 3, then 4 to 7. */
  lemma UnitTestScenario()
    ensures AddedAll([], 5, [1, 2, 3]) == [1, 2, 3]
    ensures AddedAll([1, 2, 3], 5, [4, 5, 6, 7]) == [3, 4, 5, 6, 7]
  {
    AddedAllKeepsNewest([], 5, [1, 2, 3]);
    AddedAllKeepsNewest([1, 2, 3], 5, [4, 5, 6, 7]);
    assert [1, 2, 3] + [4, 5, 6, 7] == [1, 2, 3, 4, 5, 6, 7];
  }

  class EvictingList<T(0)> {
    /** The entries, front (oldest) first. */
    var data: seq<T>
    const capacity: int

    ghost predicate Valid()
      reads this
    {
      capacity > 0 ==> |data| <= capacity
    }

    /** `NewEvictingList`: an empty list with a fixed capacity. */
    constructor (capacity: int)
      ensures Valid()
      ensures this.capacity == capacity && data == []
    {
      this.capacity := capacity;
      data := [];
    }

    /** `Add`: evict the front when full, then push the value at the back. */
    method Add(value: T)
      requires Valid()
      modifies this
      ensures Valid()
      ensures data == Added(old(data), capacity, value)
    {
      if capacity > 0 && |data| == capacity {
        data := data[1..];
      }
      data := data + [value];
    }

    method Len() returns (n: int)
      ensures n == |data|
    {
      n := |data|;
    }

    method Capacity() returns (c: int)
      ensures c == capacity
    {
      c := capacity;
    }

    /** `PopFront`: the oldest entry and `true`, or the zero value and `false` when empty. */
    method PopFront() returns (value: T, ok: bool)
      requires Valid()
      modifies this
      ensures Valid()
      ensures ok <==> old(data) != []
      ensures ok ==> value == old(data)[0] && data == old(data)[1..]
      ensures !ok ==> data == []
    {
      if |data| == 0 {
        // Go returns the zero value of T; any value of T stands for it here.
        value := *;
        return value, false;
      }
      value := data[0];
      data := data[1..];
      ok := true;
    }

    /** `Values`: a copy of the entries, oldest to newest, walked front to back. */
    method Values() returns (values: seq<T>)
      ensures values == data
    {
      values := [];
      var i := 0;
      while i < |data|
        invariant 0 <= i <= |data|
        invariant values == data[..i]
      {
        values := values + [data[i]];
        i := i + 1;
      }
    }
  }

  /** Driving the class through the unit-test scenario yields the values the test expects. */
  method UnitTest() returns (first: seq<int>, second: seq<int>)
    ensures first == [1, 2, 3]
    ensures second == [3, 4, 5, 6, 7]
  {
    var l := new EvictingList<int>(5);
    l.Add(1);
    l.Add(2);
    l.Add(3);
    first := l.Values();
    l.Add(4);
    l.Add(5);
    l.Add(6);
    l.Add(7);
    second := l.Values();
  }
}
