/** Searching a sequence as JavaScript's `findIndex` does. */
module Sequences {
  /** `s.findIndex(x => key(x) === k)`: the first index whose element has key `k`, or -1. */
  function FindIndex<T>(s: seq<T>, key: T -> string, k: string): (i: int)
    ensures -1 <= i < |s|
    ensures i == -1 <==> forall j | 0 <= j < |s| :: key(s[j]) != k
    ensures 0 <= i ==> key(s[i]) == k && forall j | 0 <= j < i :: key(s[j]) != k
  {
    if s == [] then -1
    else if key(s[0]) == k then 0
    else
      var rest := FindIndex(s[1..], key, k);
      assert forall j | 1 <= j < |s| :: s[j] == s[1..][j - 1];
      if rest == -1 then -1 else rest + 1
  }
}
