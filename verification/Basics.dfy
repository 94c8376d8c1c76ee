// Types shared by the whole model.
module Basics {
  datatype Option<+T> = None | Some(value: T)

  /** A sync GUID. The protocol only ever compares GUIDs, for equality and in one total order. */
  type Guid = int

  /** A reading of a clock that never goes below zero. */
  type Instant = t: real | t >= 0.0

  /** Where a peer stands with the session. */
  datatype SessionStatus = Discovering | Joining | Synced

  function Sum(numbers: seq<int>): int {
    if numbers == [] then 0 else Sum(numbers[..|numbers| - 1]) + numbers[|numbers| - 1]
  }

  lemma {:induction false} SumOneMore(numbers: seq<int>, n: int)
    ensures Sum(numbers + [n]) == Sum(numbers) + n
  {
    assert (numbers + [n])[..|numbers|] == numbers;
  }

  lemma {:induction false} SumOneBefore(n: int, numbers: seq<int>)
    ensures Sum([n] + numbers) == n + Sum(numbers)
  {
    if numbers == [] {
      assert [n] + numbers == [n] && [n][..0] == [];
    } else {
      var init := numbers[..|numbers| - 1];
      SumOneBefore(n, init);
      assert ([n] + numbers)[..|numbers|] == [n] + init;
    }
  }
}
