/** Models of the two Go `strings` functions the resolver relies on, for a
    one-character separator: `strings.Index` and `strings.SplitN(s, sep, 2)`. */
module GoStrings {

  /** `strings.Index(s, string(c))`: the index of the first `c` in `s`, or -1
      when `s` has none. Positions count characters, not the bytes Go counts;
      the text before and after the separator is the same either way for an
      ASCII separator. */
  function Index(s: string, c: char): (i: int)
    ensures -1 <= i < |s|
    ensures i == -1 <==> c !in s
    ensures 0 <= i ==> s[i] == c && c !in s[..i]
  {
    if s == [] then -1
    else if s[0] == c then 0
    else
      var j := Index(s[1..], c);
      if j < 0 then -1 else j + 1
  }

  /** `strings.HasPrefix(s, pre)`. */
  predicate HasPrefix(s: string, pre: string) {
    |pre| <= |s| && s[..|pre|] == pre
  }

  /** `strings.SplitN(s, string(sep), 2)`: `s` cut at its first `sep`, or `[s]`
      when there is none. It never yields fewer than one part. */
  function SplitN2(s: string, sep: char): (parts: seq<string>)
    ensures 1 <= |parts| <= 2
    ensures |parts| == 1 <==> sep !in s
    ensures |parts| == 1 ==> parts[0] == s
    ensures |parts| == 2 ==> parts[0] + [sep] + parts[1] == s && sep !in parts[0]
  {
    var i := Index(s, sep);
    if i < 0 then [s] else [s[..i], s[i + 1..]]
  }

  /** The cut is at the FIRST separator: whatever follows it, further
      separators included, is the second part. */
  lemma SplitN2AtFirst(s: string, sep: char, head: string, tail: string)
    requires s == head + [sep] + tail
    requires sep !in head
    ensures SplitN2(s, sep) == [head, tail]
  {
    IndexOfFirst(s, sep, head, tail);
    assert s[..|head|] == head;
    assert s[|head| + 1..] == tail;
  }

  /** `Index` finds the separator that follows a separator-free prefix. */
  lemma {:induction false} IndexOfFirst(s: string, c: char, head: string, tail: string)
    requires s == head + [c] + tail
    requires c !in head
    ensures Index(s, c) == |head|
  {
    if head != [] {
      assert head[0] in head;
      assert s[1..] == head[1..] + [c] + tail;
      IndexOfFirst(s[1..], c, head[1..], tail);
    }
  }
}
