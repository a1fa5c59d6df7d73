/** Searching, splitting and joining text on a separator character. */
module Strings {

  /** The position of the first `c` in `s`. */
  function FirstIndex(s: string, c: char): (k: nat)
    requires c in s
    ensures k < |s| && s[k] == c
    ensures forall j :: 0 <= j < k ==> s[j] != c
  {
    if s[0] == c then 0 else 1 + FirstIndex(s[1..], c)
  }

  /** The parts of `s` between occurrences of `c`; always at least one part. */
  function Split(s: string, c: char): (parts: seq<string>)
    ensures parts != []
    decreases |s|
  {
    if c !in s then [s]
    else
      var k := FirstIndex(s, c);
      [s[..k]] + Split(s[k + 1..], c)
  }

  /** The parts of `parts` with a `c` between neighbours. */
  function Join(parts: seq<string>, c: char): string
    requires parts != []
    decreases |parts|
  {
    if |parts| == 1 then parts[0] else parts[0] + [c] + Join(parts[1..], c)
  }

  /** Part `p` followed by `c` and more text splits at that `c`. */
  lemma SplitFirst(p: string, c: char, rest: string)
    requires c !in p
    ensures Split(p + [c] + rest, c) == [p] + Split(rest, c)
  {
    var s := p + [c] + rest;
    assert s[|p|] == c;
    var k := FirstIndex(s, c);
    assert k == |p|;
    assert s[..k] == p;
    assert s[k + 1..] == rest;
  }

  /** Splitting a join gives back the parts, when no part holds the separator. */
  lemma {:induction false} SplitJoin(parts: seq<string>, c: char)
    requires parts != []
    requires forall i :: 0 <= i < |parts| ==> c !in parts[i]
    ensures Split(Join(parts, c), c) == parts
    decreases |parts|
  {
    if |parts| > 1 {
      var rest := parts[1..];
      forall i | 0 <= i < |rest| ensures c !in rest[i] {
        assert rest[i] == parts[i + 1];
      }
      SplitJoin(rest, c);
      assert Join(parts, c) == parts[0] + [c] + Join(rest, c);
      SplitFirst(parts[0], c, Join(rest, c));
      assert parts == [parts[0]] + rest;
    }
  }

  /** A join starts with its first part. */
  lemma JoinStartsWith(parts: seq<string>, c: char)
    requires parts != []
    ensures parts[0] <= Join(parts, c)
  {
  }
}
