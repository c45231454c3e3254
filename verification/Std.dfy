/** Small pieces shared by the other modules. */
module Std {
  datatype Option<+T> = None | Some(value: T)

  type Byte = x: int | 0 <= x < 256
  type Int16 = x: int | -32768 <= x <= 32767

  /** All but the last element of a history. */
  function Init<T>(s: seq<T>): seq<T>
    requires s != []
  {
    s[..|s| - 1]
  }

  function Last<T>(s: seq<T>): T
    requires s != []
  {
    s[|s| - 1]
  }

  lemma InitLast<T>(s: seq<T>, x: T)
    ensures s + [x] != [] && Init(s + [x]) == s && Last(s + [x]) == x
  {
  }

  function Concat<T>(ss: seq<seq<T>>): seq<T> {
    if ss == [] then [] else Concat(Init(ss)) + Last(ss)
  }

  lemma ConcatAppend<T>(ss: seq<seq<T>>, s: seq<T>)
    ensures Concat(ss + [s]) == Concat(ss) + s
  {
    InitLast(ss, s);
  }

  lemma Regroup<T>(a: seq<T>, b: seq<T>, c: seq<T>)
    ensures a + b + c == a + (b + c)
  {
  }

  /** The first sequence is the second with some elements left out. */
  predicate Subsequence<T(==)>(a: seq<T>, b: seq<T>) {
    a == [] || (b != [] && ((Last(a) == Last(b) && Subsequence(Init(a), Init(b))) || Subsequence(a, Init(b))))
  }
}
