/** The search that every table of the system is found by: the first entry with a given key. */
module Searches {
  function IndexOf<T>(s: seq<T>, key: T -> int, id: int): (r: int)
    ensures -1 <= r < |s|
    ensures r != -1 ==> key(s[r]) == id && forall j | 0 <= j < r :: key(s[j]) != id
    ensures r == -1 ==> forall j | 0 <= j < |s| :: key(s[j]) != id
  {
    if s == [] then -1
    else
      var n := |s| - 1;
      var r := IndexOf(s[..n], key, id);
      assert forall j | 0 <= j < n :: s[..n][j] == s[j];
      if r == -1 && key(s[n]) == id then n else r
  }
}
