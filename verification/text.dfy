/**
 Python string semantics the formatter relies on (truthiness and slicing), and the
 counting of block terminators in a rendered text.
 */
module Text {
  import opened Wrappers

  /** Python truthiness of a value that is either `None` or a `str`:
      `None` and the empty string are falsy, every other string is truthy. */
  predicate Truthy(s: Option<string>)
  {
    s.Some? && |s.value| > 0
  }

  /** Python's `s[:n]` for a non-negative bound `n`: the first `n` characters,
      or the whole string when it is shorter. */
  function Take(s: string, n: nat): (r: string)
    ensures |r| == if |s| < n then |s| else n
    ensures r <= s
  {
    if |s| <= n then s else s[..n]
  }

  /** The line that closes every issue block, newline included. */
  const Terminator: string := "---\n"

  /** The number of positions of `s` at which `Terminator` starts. */
  function CountTerminators(s: string): nat
  {
    if |s| < |Terminator| then 0
    else (if s[..|Terminator|] == Terminator then 1 else 0) + CountTerminators(s[1..])
  }

  /** No occurrence of `Terminator` can straddle the seam between `a` and `b`:
      such an occurrence would need `a` to end in a dash and `b` to start with
      a dash or a newline. */
  predicate Joinable(a: string, b: string)
  {
    |a| == 0 || |b| == 0 || a[|a| - 1] != '-' || (b[0] != '-' && b[0] != '\n')
  }

  /** A single-line piece of text that does not end in a dash. */
  predicate Inert(s: string)
  {
    '\n' !in s && (|s| == 0 || s[|s| - 1] != '-')
  }

  /** Counting terminators distributes over a concatenation whose seam cannot
      hold one. */
  lemma {:induction false} CountAppend(a: string, b: string)
    requires Joinable(a, b)
    ensures CountTerminators(a + b) == CountTerminators(a) + CountTerminators(b)
    decreases |a|
  {
    if |a| == 0 {
      assert a + b == b;
    } else {
      var ab := a + b;
      assert ab[1..] == a[1..] + b;
      assert Joinable(a[1..], b);
      CountAppend(a[1..], b);
      if |a| >= |Terminator| {
        assert ab[..|Terminator|] == a[..|Terminator|];
      } else if |ab| >= |Terminator| {
        assert ab[|a| - 1] == a[|a| - 1] && ab[|a|] == b[0];
        assert ab[..|Terminator|] != Terminator;
      }
    }
  }

  /** A text without a newline, or without a dash, holds no terminator. */
  lemma {:induction false} NoTerminatorWithoutNewlineOrDash(s: string)
    requires '\n' !in s || '-' !in s
    ensures CountTerminators(s) == 0
    decreases |s|
  {
    if |s| >= |Terminator| {
      assert s[0] in s && s[3] in s;
      assert s[..|Terminator|] != Terminator;
      assert forall c :: c in s[1..] ==> c in s;
      NoTerminatorWithoutNewlineOrDash(s[1..]);
    }
  }

  /** A text that ends in the terminator holds at least one. */
  lemma {:induction false} TerminatorSuffixCounts(s: string)
    requires |s| >= |Terminator| && s[|s| - |Terminator|..] == Terminator
    ensures CountTerminators(s) >= 1
    decreases |s|
  {
    if |s| > |Terminator| {
      assert s[1..][|s[1..]| - |Terminator|..] == s[|s| - |Terminator|..];
      TerminatorSuffixCounts(s[1..]);
    } else {
      assert s[..|Terminator|] == s;
    }
  }

  /** Gluing two texts keeps every terminator of each: the seam can only add. */
  lemma {:induction false} CountSuperadditive(a: string, b: string)
    ensures CountTerminators(a + b) >= CountTerminators(a) + CountTerminators(b)
    decreases |a|
  {
    if |a| == 0 {
      assert a + b == b;
    } else {
      var ab := a + b;
      assert ab[1..] == a[1..] + b;
      CountSuperadditive(a[1..], b);
      if |a| >= |Terminator| {
        assert ab[..|Terminator|] == a[..|Terminator|];
      }
    }
  }

  /** The pieces of a template, one after another. */
  function Concat(pieces: seq<string>): string
  {
    if |pieces| == 0 then "" else Concat(pieces[..|pieces| - 1]) + pieces[|pieces| - 1]
  }

  /** Peels the last piece off the concatenation of the first `k` pieces. */
  lemma ConcatPrefix(pieces: seq<string>, k: nat)
    requires 0 < k <= |pieces|
    ensures Concat(pieces[..k]) == Concat(pieces[..k - 1]) + pieces[k - 1]
  {
    assert pieces[..k][..k - 1] == pieces[..k - 1];
  }

  /** A template of eleven pieces, written out. */
  lemma ConcatEleven(ps: seq<string>)
    requires |ps| == 11
    ensures Concat(ps) == ps[0] + ps[1] + ps[2] + ps[3] + ps[4] + ps[5] + ps[6] + ps[7] + ps[8] + ps[9] + ps[10]
  {
    assert ps[..0] == [];
    ConcatPrefix(ps, 1);
    assert Concat(ps[..1]) == ps[0];
    ConcatPrefix(ps, 2);
    assert Concat(ps[..2]) == ps[0] + ps[1];
    ConcatPrefix(ps, 3);
    assert Concat(ps[..3]) == ps[0] + ps[1] + ps[2];
    ConcatPrefix(ps, 4);
    assert Concat(ps[..4]) == ps[0] + ps[1] + ps[2] + ps[3];
    ConcatPrefix(ps, 5);
    assert Concat(ps[..5]) == ps[0] + ps[1] + ps[2] + ps[3] + ps[4];
    ConcatPrefix(ps, 6);
    assert Concat(ps[..6]) == ps[0] + ps[1] + ps[2] + ps[3] + ps[4] + ps[5];
    ConcatPrefix(ps, 7);
    assert Concat(ps[..7]) == ps[0] + ps[1] + ps[2] + ps[3] + ps[4] + ps[5] + ps[6];
    ConcatPrefix(ps, 8);
    assert Concat(ps[..8]) == ps[0] + ps[1] + ps[2] + ps[3] + ps[4] + ps[5] + ps[6] + ps[7];
    ConcatPrefix(ps, 9);
    assert Concat(ps[..9]) == ps[0] + ps[1] + ps[2] + ps[3] + ps[4] + ps[5] + ps[6] + ps[7] + ps[8];
    ConcatPrefix(ps, 10);
    assert Concat(ps[..10]) == ps[0] + ps[1] + ps[2] + ps[3] + ps[4] + ps[5] + ps[6] + ps[7] + ps[8] + ps[9];
    ConcatPrefix(ps, 11);
    assert Concat(ps[..11]) == ps[0] + ps[1] + ps[2] + ps[3] + ps[4] + ps[5] + ps[6] + ps[7] + ps[8] + ps[9] + ps[10];
    assert ps[..11] == ps;
  }

  /** The texts rendered from `items`, one after another, in order: what a
      loop that starts from `""` and appends `render(item)` for each item builds. */
  function Join<T>(items: seq<T>, render: T -> string): string
  {
    if |items| == 0 then "" else render(items[0]) + Join(items[1..], render)
  }

  /** Appending one item appends its rendering. */
  lemma {:induction false} JoinSnoc<T>(items: seq<T>, item: T, render: T -> string)
    ensures Join(items + [item], render) == Join(items, render) + render(item)
    decreases |items|
  {
    if |items| == 0 {
      assert [] + [item] == [item];
    } else {
      assert (items + [item])[1..] == items[1..] + [item];
      JoinSnoc(items[1..], item, render);
    }
  }

  /** One step of the appending loop: the join of the first `i + 1` items is
      the join of the first `i` followed by the rendering of item `i`. */
  lemma JoinPrefixStep<T>(items: seq<T>, i: nat, render: T -> string)
    requires i < |items|
    ensures Join(items[..i + 1], render) == Join(items[..i], render) + render(items[i])
  {
    assert items[..i + 1] == items[..i] + [items[i]];
    JoinSnoc(items[..i], items[i], render);
  }

  /** Joining two runs of items gives the join of the first followed by that
      of the second. */
  lemma {:induction false} JoinAppend<T>(a: seq<T>, b: seq<T>, render: T -> string)
    ensures Join(a + b, render) == Join(a, render) + Join(b, render)
    decreases |a|
  {
    if |a| == 0 {
      assert a + b == b;
    } else {
      assert (a + b)[1..] == a[1..] + b;
      JoinAppend(a[1..], b, render);
    }
  }

  /** The rendering of the `i`-th item sits, whole, between the renderings of
      the items before it and those of the items after it. */
  lemma JoinInPlace<T>(items: seq<T>, i: nat, render: T -> string)
    requires i < |items|
    ensures Join(items, render) == Join(items[..i], render) + render(items[i]) + Join(items[i + 1..], render)
  {
    var before, from := items[..i], items[i..];
    assert items == before + from;
    JoinAppend(before, from, render);
    assert from[0] == items[i] && from[1..] == items[i + 1..];
  }

  /** A text that ends with `suffix` still does after anything is put in front of it. */
  lemma SuffixKept(prefix: string, text: string, suffix: string)
    requires |text| >= |suffix| && text[|text| - |suffix|..] == suffix
    ensures var t := prefix + text; |t| >= |suffix| && t[|t| - |suffix|..] == suffix
  {
    var t := prefix + text;
    assert t[|t| - |suffix|..] == text[|text| - |suffix|..];
  }

  /** A join ends with whatever its last rendering ends with. */
  lemma JoinEndsWith<T>(items: seq<T>, render: T -> string, suffix: string)
    requires |items| > 0
    requires var last := render(items[|items| - 1]);
      |last| >= |suffix| && last[|last| - |suffix|..] == suffix
    ensures var j := Join(items, render);
      |j| >= |suffix| && j[|j| - |suffix|..] == suffix
  {
    var n := |items| - 1;
    JoinPrefixStep(items, n, render);
    assert items[..n + 1] == items;
    SuffixKept(Join(items[..n], render), render(items[n]), suffix);
  }
}
