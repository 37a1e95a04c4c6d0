/** Sequences with entries left out. */
module Sequences {
  /** `part` is `whole` with entries left out. */
  ghost predicate Subsequence<T>(part: seq<T>, whole: seq<T>)
    decreases |whole|
  {
    if whole == [] then part == []
    else
      || Subsequence(part, whole[1..])
      || (part != [] && part[0] == whole[0] && Subsequence(part[1..], whole[1..]))
  }

  lemma AddedInFront<T>(x: T, part: seq<T>, whole: seq<T>)
    requires Subsequence(part, whole)
    ensures Subsequence(part, [x] + whole) && Subsequence([x] + part, [x] + whole)
  {
    assert ([x] + whole)[1..] == whole && ([x] + part)[1..] == part;
  }

  lemma {:induction false} AddedAtEnd<T>(x: T, part: seq<T>, whole: seq<T>)
    requires Subsequence(part, whole)
    ensures Subsequence(part, whole + [x]) && Subsequence(part + [x], whole + [x])
    decreases |whole|
  {
    if whole == [] {
      assert part + [x] == [x] && whole + [x] == [x] && [x][1..] == [];
      assert Subsequence<T>([], []);
      assert Subsequence([], [x]) && Subsequence([x], [x]);
    } else {
      assert (whole + [x])[1..] == whole[1..] + [x];
      if Subsequence(part, whole[1..]) {
        AddedAtEnd(x, part, whole[1..]);
      } else {
        AddedAtEnd(x, part[1..], whole[1..]);
        assert (part + [x])[1..] == part[1..] + [x];
      }
    }
  }
}
