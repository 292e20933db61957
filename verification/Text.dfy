/** Splitting and joining character strings at a separator. */
module Text {
  import opened Common

  /** The maximal runs of `s` between occurrences of `c`; never empty. */
  function Split(s: string, c: char): (r: seq<string>)
    ensures |r| >= 1
  {
    if s == [] then [[]]
    else if s[0] == c then [[]] + Split(s[1..], c)
    else
      var r := Split(s[1..], c);
      [[s[0]] + r[0]] + r[1..]
  }

  function Join(vs: seq<string>, c: char): string
    requires vs != []
  {
    if |vs| == 1 then vs[0] else Join(vs[..|vs| - 1], c) + [c] + vs[|vs| - 1]
  }

  function SplitAll(vs: seq<string>, c: char): seq<string> {
    if vs == [] then [] else SplitAll(vs[..|vs| - 1], c) + Split(vs[|vs| - 1], c)
  }

  lemma JoinOne(v: string, c: char)
    ensures Join([v], c) == v
  {
  }

  lemma JoinSnoc(vs: seq<string>, v: string, c: char)
    requires vs != []
    ensures Join(vs + [v], c) == Join(vs, c) + [c] + v
  {
    assert (vs + [v])[..|vs|] == vs;
  }

  lemma SplitHead(d: char, s: string, c: char)
    ensures Split([d] + s, c) == if d == c then [[]] + Split(s, c) else [[d] + Split(s, c)[0]] + Split(s, c)[1..]
  {
    assert ([d] + s)[1..] == s;
  }

  lemma {:induction false} SplitAtSeparator(a: string, c: char, b: string)
    ensures Split(a + [c] + b, c) == Split(a, c) + Split(b, c)
  {
    SplitNothing(c);
    hide Split;
    if a == [] {
      assert a + [c] + b == [c] + b;
      SplitHead(c, b, c);
    } else {
      SplitAtSeparator(a[1..], c, b);
      assert a + [c] + b == [a[0]] + (a[1..] + [c] + b);
      SplitHead(a[0], a[1..] + [c] + b, c);
      assert a == [a[0]] + a[1..];
      SplitHead(a[0], a[1..], c);
    }
  }

  lemma SplitNothing(c: char)
    ensures Split([], c) == [[]]
  {
  }

  lemma {:induction false} SplitWithoutSeparator(s: string, c: char)
    requires c !in s
    ensures Split(s, c) == [s]
  {
    if s != [] {
      SplitWithoutSeparator(s[1..], c);
      assert [s[0]] + s[1..] == s;
    }
  }

  /** Splitting undoes joining, also when the joined strings contain the
      separator themselves. */
  lemma {:induction false} SplitJoin(vs: seq<string>, c: char)
    requires vs != []
    ensures Split(Join(vs, c), c) == SplitAll(vs, c)
  {
    if |vs| == 1 {
      assert vs[..0] == [];
      assert SplitAll(vs, c) == SplitAll([], c) + Split(vs[0], c);
    } else {
      var n := |vs| - 1;
      SplitJoin(vs[..n], c);
      SplitAtSeparator(Join(vs[..n], c), c, vs[n]);
    }
  }

  lemma {:induction false} SplitAllWithoutSeparator(vs: seq<string>, c: char)
    requires forall v :: v in vs ==> c !in v
    ensures SplitAll(vs, c) == vs
  {
    if vs != [] {
      var n := |vs| - 1;
      SplitAllWithoutSeparator(vs[..n], c);
      SplitWithoutSeparator(vs[n], c);
      assert vs[..n] + [vs[n]] == vs;
    }
  }
}
