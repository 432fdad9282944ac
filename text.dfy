/**
  The Python string operations the models rely on: `sep.join(parts)`,
  `s.split(c)`, `s.replace(c, rep)` for a one-character `c`, and the
  substring test `pat in s`.
*/
module Text {

  /** `sep.join(parts)`; the empty list joins to the empty string. */
  function Join(parts: seq<string>, sep: string): string
  {
    if |parts| == 0 then ""
    else if |parts| == 1 then parts[0]
    else Join(parts[..|parts| - 1], sep) + sep + parts[|parts| - 1]
  }

  /** Appending `x` to the last part appends `x` to the joined string. */
  lemma JoinExtendLast(parts: seq<string>, sep: string, x: string)
    requires |parts| >= 1
    ensures var k := |parts| - 1;
            Join(parts[..k] + [parts[k] + x], sep) == Join(parts, sep) + x
  {
    var k := |parts| - 1;
    var grown := parts[..k] + [parts[k] + x];
    assert grown[..k] == parts[..k];
  }

  /**
    `s.split(sep)`: the pieces between the separators. There is always at
    least one piece and no piece holds the separator.
  */
  function Split(s: string, sep: char): (parts: seq<string>)
    ensures |parts| >= 1
    ensures forall i :: 0 <= i < |parts| ==> sep !in parts[i]
  {
    if s == [] then [[]]
    else
      var init := Split(s[..|s| - 1], sep);
      var c := s[|s| - 1];
      if c == sep then init + [[]]
      else init[..|init| - 1] + [init[|init| - 1] + [c]]
  }

  /** How one more character extends the pieces. */
  lemma SplitSnoc(s: string, x: char, sep: char)
    ensures var init := Split(s, sep);
            Split(s + [x], sep) ==
              if x == sep then init + [[]] else init[..|init| - 1] + [init[|init| - 1] + [x]]
  {
    assert (s + [x])[..|s|] == s;
  }

  /** Round trip: joining the pieces with the separator gives `s` back. */
  lemma {:induction false} JoinSplit(s: string, sep: char)
    ensures Join(Split(s, sep), [sep]) == s
  {
    if s != [] {
      var s', c := s[..|s| - 1], s[|s| - 1];
      JoinSplit(s', sep);
      assert s == s' + [c];
      SplitSnoc(s', c, sep);
      var init := Split(s', sep);
      if c == sep {
        assert (init + [[]])[..|init|] == init;
      } else {
        JoinExtendLast(init, [sep], [c]);
      }
    }
  }

  /** A string without the separator splits into itself alone. */
  lemma {:induction false} SplitWithoutSep(p: string, sep: char)
    requires sep !in p
    ensures Split(p, sep) == [p]
  {
    if p != [] {
      SplitWithoutSep(p[..|p| - 1], sep);
      assert p[..|p| - 1] + [p[|p| - 1]] == p;
    }
  }

  /** A separator followed by separator-free text adds exactly one piece. */
  lemma {:induction false} SplitAfterSep(s: string, sep: char, p: string)
    requires sep !in p
    ensures Split(s + [sep] + p, sep) == Split(s, sep) + [p]
  {
    if p == [] {
      assert s + [sep] + p == s + [sep];
      SplitSnoc(s, sep, sep);
    } else {
      var p', x := p[..|p| - 1], p[|p| - 1];
      var init := Split(s + [sep] + p', sep);
      assert Split(s + [sep] + p, sep) == init[..|init| - 1] + [init[|init| - 1] + [x]] by {
        assert x in p;
        assert s + [sep] + p == (s + [sep] + p') + [x];
        SplitSnoc(s + [sep] + p', x, sep);
      }
      SplitAfterSep(s, sep, p');
      assert init[..|init| - 1] == Split(s, sep);
      assert p' + [x] == p;
    }
  }

  /** Round trip the other way: splitting joined separator-free pieces gives the pieces. */
  lemma {:induction false} SplitJoin(parts: seq<string>, sep: char)
    requires |parts| >= 1
    requires forall i :: 0 <= i < |parts| ==> sep !in parts[i]
    ensures Split(Join(parts, [sep]), sep) == parts
  {
    if |parts| == 1 {
      SplitWithoutSep(parts[0], sep);
    } else {
      var k := |parts| - 1;
      SplitJoin(parts[..k], sep);
      SplitAfterSep(Join(parts[..k], [sep]), sep, parts[k]);
      assert parts[..k] + [parts[k]] == parts;
    }
  }

  /** `s.replace(c, rep)` for a one-character `c`: every `c` becomes `rep`. */
  function Replace(s: string, c: char, rep: string): string
  {
    if s == [] then []
    else Replace(s[..|s| - 1], c, rep) + (if s[|s| - 1] == c then rep else [s[|s| - 1]])
  }

  /**
    Replacing agrees with Python's `rep.join(s.split(c))`, so everything
    between the occurrences of `c` is kept, in order.
  */
  lemma {:induction false} ReplaceIsSplitJoin(s: string, c: char, rep: string)
    ensures Replace(s, c, rep) == Join(Split(s, c), rep)
  {
    if s != [] {
      var s' := s[..|s| - 1];
      var x := s[|s| - 1];
      ReplaceIsSplitJoin(s', c, rep);
      var init := Split(s', c);
      if x == c {
        assert (init + [[]])[..|init|] == init;
      } else {
        JoinExtendLast(init, rep, [x]);
      }
    }
  }

  /** When `rep` does not hold `c`, no `c` is left. */
  lemma {:induction false} ReplaceRemoves(s: string, c: char, rep: string)
    requires c !in rep
    ensures c !in Replace(s, c, rep)
  {
    if s != [] {
      ReplaceRemoves(s[..|s| - 1], c, rep);
    }
  }

  /** Text without `c` is left as it is. */
  lemma {:induction false} ReplaceWithout(s: string, c: char, rep: string)
    requires c !in s
    ensures Replace(s, c, rep) == s
  {
    if s != [] {
      ReplaceWithout(s[..|s| - 1], c, rep);
      assert s[..|s| - 1] + [s[|s| - 1]] == s;
    }
  }

  /** Replacing twice is replacing once, when `rep` does not hold `c`. */
  lemma ReplaceIdempotent(s: string, c: char, rep: string)
    requires c !in rep
    ensures Replace(Replace(s, c, rep), c, rep) == Replace(s, c, rep)
  {
    ReplaceRemoves(s, c, rep);
    ReplaceWithout(Replace(s, c, rep), c, rep);
  }

  /** Replacement works piece by piece: it distributes over concatenation. */
  lemma {:induction false} ReplaceAppend(a: string, b: string, c: char, rep: string)
    ensures Replace(a + b, c, rep) == Replace(a, c, rep) + Replace(b, c, rep)
  {
    if b == [] {
      assert a + b == a;
    } else {
      var b', x := b[..|b| - 1], b[|b| - 1];
      var tail := if x == c then rep else [x];
      assert Replace(a + b, c, rep) == Replace(a + b', c, rep) + tail by {
        assert (a + b)[..|a + b| - 1] == a + b';
      }
      ReplaceAppend(a, b', c, rep);
    }
  }

  /** The number of occurrences of `c` in `s`. */
  function Occurrences(s: string, c: char): nat
  {
    multiset(s)[c]
  }

  lemma OccurrencesSnoc(s: string, x: char, c: char)
    ensures Occurrences(s + [x], c) == Occurrences(s, c) + (if x == c then 1 else 0)
  {
    assert multiset(s + [x]) == multiset(s) + multiset{x};
  }

  /** Each occurrence of `c` turns into `|rep|` characters; the rest stay. */
  lemma {:induction false} ReplaceLength(s: string, c: char, rep: string)
    ensures |Replace(s, c, rep)| == |s| - Occurrences(s, c) + Occurrences(s, c) * |rep|
  {
    if s != [] {
      var s' := s[..|s| - 1];
      var x := s[|s| - 1];
      ReplaceLength(s', c, rep);
      assert s == s' + [x];
      OccurrencesSnoc(s', x, c);
      var o := Occurrences(s', c);
      if x == c {
        MulSucc(o, |rep|);
      }
    }
  }

  lemma MulSucc(a: nat, b: nat)
    ensures (a + 1) * b == a * b + b
  {
  }

  /** Python's `pat in s` for strings: `pat` occurs at some position of `s`. */
  predicate IsInfix(pat: string, s: string)
  {
    exists k :: 0 <= k <= |s| && pat <= s[k..]
  }
}
