/** A model of Go's `path/filepath.Ext` on a system whose only path separator
    is `/`, with the final path element it looks at. */
module FilePath {

  /** `t` is a suffix of `s`. */
  predicate IsSuffix(t: string, s: string) {
    |t| <= |s| && s[|s| - |t|..] == t
  }

  /** The final `/`-separated element of `p`: the text after its last `/`, or
      all of `p` when it has no `/`. */
  function LastElement(p: string): (b: string)
    ensures IsSuffix(b, p)
    ensures '/' !in b
    ensures |b| == |p| || p[|p| - |b| - 1] == '/'
  {
    if p == [] || p[|p| - 1] == '/' then []
    else LastElement(p[..|p| - 1]) + [p[|p| - 1]]
  }

  /** `filepath.Ext(p)`: scanning `p` from its end and stopping at the first
      `/`, the suffix that starts at the first `.` met, or "" when the final
      element has no `.`. */
  function Ext(p: string): (e: string)
    ensures e == [] <==> '.' !in LastElement(p)
    ensures e != [] ==> e[0] == '.' && '.' !in e[1..] && IsSuffix(e, LastElement(p))
  {
    if p == [] || p[|p| - 1] == '/' then []
    else if p[|p| - 1] == '.' then p[|p| - 1..]
    else
      var init, c := p[..|p| - 1], p[|p| - 1];
      var e := Ext(init);
      assert LastElement(p) == LastElement(init) + [c];
      SuffixSnoc(e, LastElement(init), c);
      if e == [] then [] else e + [c]
  }

  /** Appending one character to both sides keeps a suffix a suffix. */
  lemma SuffixSnoc(t: string, s: string, c: char)
    requires IsSuffix(t, s)
    ensures IsSuffix(t + [c], s + [c])
    ensures t != [] ==> (t + [c])[1..] == t[1..] + [c]
  {
    assert (s + [c])[|s| - |t|..] == s[|s| - |t|..] + [c];
  }

  /** Appending text without `/` extends the final element. */
  lemma {:induction false} LastElementAppend(s: string, t: string)
    requires '/' !in t
    ensures LastElement(s + t) == LastElement(s) + t
  {
    if t == [] {
      assert s + t == s;
    } else {
      var init := t[..|t| - 1];
      var c := t[|t| - 1];
      assert c in t;
      assert (s + t)[|s + t| - 1] == c;
      assert (s + t)[..|s + t| - 1] == s + init;
      assert t == init + [c];
      assert '/' !in init;
      LastElementAppend(s, init);
      assert LastElement(s + t) == LastElement(s + init) + [c];
      assert t == init + [c];
    }
  }

  /** One more character that is neither `.` nor `/` extends a found
      extension and leaves a missing one missing. */
  lemma ExtSnoc(q: string, c: char)
    requires c != '.' && c != '/'
    ensures Ext(q + [c]) == if Ext(q) == [] then [] else Ext(q) + [c]
  {
    assert (q + [c])[..|q|] == q;
  }

  /** A path ending in `.` followed by text with neither `.` nor `/` has
      exactly that `.` and text as its extension. */
  lemma {:induction false} ExtOfSuffix(stem: string, t: string)
    requires '.' !in t && '/' !in t
    ensures Ext(stem + "." + t) == "." + t
  {
    if t == [] {
      assert stem + "." + t == stem + ".";
      assert "." + t == ".";
    } else {
      var init, c := t[..|t| - 1], t[|t| - 1];
      assert t == init + [c];
      assert c in t;
      assert '.' !in init && '/' !in init;
      assert stem + "." + t == (stem + "." + init) + [c];
      ExtOfSuffix(stem, init);
      assert "." + t == ("." + init) + [c];
      ExtSnoc(stem + "." + init, c);
    }
  }
}
