/**
 * The few Python `str` operations the autocomplete view relies on, written out
 * over `seq<char>`: `find`/`in`, `rfind`, `split`/`join` on one separator,
 * `lower` (ASCII letters only), `lstrip` of one character, the `translate`
 * table built from `string.whitespace` without the space, and the
 * "collapse runs of spaces" idiom `' '.join([c for c in s.split(' ') if c])`.
 */
module PyStr {
  import opened Wrappers

  /** `t` occurs in `s` starting at index `j`. */
  predicate OccursAt(s: string, t: string, j: nat)
  {
    j + |t| <= |s| && s[j..j + |t|] == t
  }

  /** `s.find(t, from)`: the first index at or after `from` where `t` occurs in `s`. */
  function FindFrom(s: string, t: string, from: nat): (r: Option<nat>)
    ensures r.Some? ==> from <= r.value && OccursAt(s, t, r.value)
    ensures r.Some? ==> forall j: nat :: from <= j < r.value ==> !OccursAt(s, t, j)
    ensures r.None? ==> forall j: nat :: from <= j ==> !OccursAt(s, t, j)
    decreases |s| - from
  {
    if from + |t| > |s| then None
    else if s[from..from + |t|] == t then Some(from)
    else FindFrom(s, t, from + 1)
  }

  /** `s.find(t)`, as an Option. */
  function Find(s: string, t: string): Option<nat>
  {
    FindFrom(s, t, 0)
  }

  /** Python's `t in s`. */
  predicate Contains(s: string, t: string)
  {
    Find(s, t).Some?
  }

  /** `t in s` holds exactly when `t` occurs somewhere in `s`; in particular `"" in s` always holds. */
  lemma ContainsIff(s: string, t: string)
    ensures Contains(s, t) <==> exists j: nat :: OccursAt(s, t, j)
    ensures Contains(s, "")
  {
    assert OccursAt(s, "", 0);
  }

  /** An occurrence inside a prefix is an occurrence in the whole text. */
  lemma OccursInPrefix(s: string, t: string, n: nat, j: nat)
    requires n <= |s| && OccursAt(s[..n], t, j)
    ensures OccursAt(s, t, j)
  {
    assert s[..n][j..j + |t|] == s[j..j + |t|];
  }

  /** Up to the last character of the first occurrence, `t` does not occur. */
  lemma BeforeFirstOccurrence(s: string, t: string)
    requires Find(s, t).Some? && |t| > 0
    ensures !Contains(s[..Find(s, t).value + |t| - 1], t)
  {
    var n := Find(s, t).value + |t| - 1;
    var pre := s[..n];
    if Contains(pre, t) {
      var j := Find(pre, t).value;
      OccursInPrefix(s, t, n, j);
    }
  }

  /** `s.rfind(c)` for a single character, as an Option. */
  function RFind(s: string, c: char): (r: Option<nat>)
    ensures r.Some? ==> r.value < |s| && s[r.value] == c && forall j :: r.value < j < |s| ==> s[j] != c
    ensures r.None? <==> c !in s
    decreases |s|
  {
    if s == [] then None
    else if s[|s| - 1] == c then Some(|s| - 1)
    else
      assert s == s[..|s| - 1] + [s[|s| - 1]];
      RFind(s[..|s| - 1], c)
  }

  /** `s.split(c)` with an explicit one-character separator: empty pieces are kept. */
  function Split(s: string, c: char): (r: seq<string>)
    ensures |r| >= 1
    ensures forall p :: p in r ==> c !in p
    decreases |s|
  {
    if s == [] then [""]
    else
      var rest := Split(s[1..], c);
      if s[0] == c then [""] + rest
      else [[s[0]] + rest[0]] + rest[1..]
  }

  /** `c.join(ps)`. */
  function Join(ps: seq<string>, c: char): string
  {
    if |ps| == 0 then ""
    else if |ps| == 1 then ps[0]
    else ps[0] + [c] + Join(ps[1..], c)
  }

  /** Joining the pieces of a split gives the original string back. */
  lemma {:induction false} JoinSplit(s: string, c: char)
    ensures Join(Split(s, c), c) == s
  {
    if s != [] {
      var rest := Split(s[1..], c);
      JoinSplit(s[1..], c);
      if s[0] == c {
        assert ([""] + rest)[1..] == rest;
      } else {
        var ps := [[s[0]] + rest[0]] + rest[1..];
        if |rest| > 1 {
          assert ps[1..] == rest[1..];
          assert Join(rest, c) == rest[0] + [c] + Join(rest[1..], c);
        }
        assert s == [s[0]] + s[1..];
      }
    }
  }

  lemma {:induction false} SplitWithoutSeparator(p: string, c: char)
    requires c !in p
    ensures Split(p, c) == [p]
    decreases |p|
  {
    if p != [] {
      SplitWithoutSeparator(p[1..], c);
      assert p == [p[0]] + p[1..];
    }
  }

  lemma {:induction false} SplitAfterPiece(p: string, c: char, t: string)
    requires c !in p
    ensures Split(p + [c] + t, c) == [p] + Split(t, c)
    decreases |p|
  {
    var s := p + [c] + t;
    if p == [] {
      assert s[1..] == t;
    } else {
      assert s[1..] == p[1..] + [c] + t;
      SplitAfterPiece(p[1..], c, t);
      assert [p[0]] + p[1..] == p;
    }
  }

  /** Splitting a join of separator-free pieces gives the pieces back. */
  lemma {:induction false} SplitJoin(ps: seq<string>, c: char)
    requires |ps| >= 1
    requires forall p :: p in ps ==> c !in p
    ensures Split(Join(ps, c), c) == ps
    decreases |ps|
  {
    if |ps| == 1 {
      SplitWithoutSeparator(ps[0], c);
    } else {
      SplitAfterPiece(ps[0], c, Join(ps[1..], c));
      SplitJoin(ps[1..], c);
      assert [ps[0]] + ps[1..] == ps;
    }
  }

  /** The first piece of a split is a prefix of the string, ended by the separator or by the end. */
  lemma {:induction false} SplitHead(s: string, c: char)
    ensures Split(s, c)[0] <= s
    ensures |Split(s, c)[0]| < |s| ==> s[|Split(s, c)[0]|] == c
    decreases |s|
  {
    if s != [] && s[0] != c {
      SplitHead(s[1..], c);
      assert s == [s[0]] + s[1..];
    }
  }

  /** Joining a path with one more segment at its end. */
  lemma {:induction false} JoinSnoc(ps: seq<string>, x: string, c: char)
    ensures Join(ps + [x], c) == if ps == [] then x else Join(ps, c) + [c] + x
    decreases |ps|
  {
    if |ps| > 1 {
      assert (ps + [x])[1..] == ps[1..] + [x];
      JoinSnoc(ps[1..], x, c);
    } else if |ps| == 1 {
      assert (ps + [x])[1..] == [x];
    }
  }

  function LowerChar(ch: char): char
  {
    if 'A' <= ch <= 'Z' then (ch as int + 32) as char else ch
  }

  /** `s.lower()`, for the ASCII letters. */
  function Lower(s: string): (r: string)
    ensures |r| == |s|
    ensures forall i :: 0 <= i < |s| ==> !('A' <= r[i] <= 'Z')
    ensures forall i :: 0 <= i < |s| && !('A' <= s[i] <= 'Z') ==> r[i] == s[i]
    ensures forall i :: 0 <= i < |s| && 'A' <= s[i] <= 'Z' ==> r[i] as int == s[i] as int + 32
  {
    seq(|s|, i requires 0 <= i < |s| => LowerChar(s[i]))
  }

  /** `s.lstrip(c)`. */
  function LStrip(s: string, c: char): (r: string)
    ensures |r| <= |s| && r == s[|s| - |r|..]
    ensures |r| > 0 ==> r[0] != c
    ensures forall i :: 0 <= i < |s| - |r| ==> s[i] == c
    decreases |s|
  {
    if |s| > 0 && s[0] == c then LStrip(s[1..], c) else s
  }

  /** `string.whitespace.replace(' ', '')`: the table handed to `str.translate`. */
  const WhitespaceTable: string := [9 as char, 10 as char, 13 as char, 11 as char, 12 as char]

  /**
   * `str.translate` with a `str` table maps code point `k` to `table[k]` when
   * `k` indexes the table and leaves every other character as it is.
   */
  function TranslateChar(ch: char): char
  {
    if (ch as int) < |WhitespaceTable| then WhitespaceTable[ch as int] else ch
  }

  /** `s.translate(WhitespaceTable)`: code points 0 to 4 become tab, line feed, carriage return, vertical tab and form feed, the rest stay. */
  function Translate(s: string): (r: string)
    ensures |r| == |s|
    ensures forall i :: 0 <= i < |s| ==> 9 <= r[i] as int || r[i] == s[i]
    ensures forall i :: 0 <= i < |s| && 5 <= s[i] as int ==> r[i] == s[i]
    ensures forall i :: 0 <= i < |s| ==> 5 <= r[i] as int
    ensures forall i :: 0 <= i < |s| && (s[i] as int) < |WhitespaceTable| ==> r[i] == WhitespaceTable[s[i] as int]
  {
    seq(|s|, i requires 0 <= i < |s| => TranslateChar(s[i]))
  }

  /** `[c for c in ps if c]`. */
  function NonEmpty(ps: seq<string>): (r: seq<string>)
    ensures forall p :: p in r <==> p in ps && p != ""
  {
    if ps == [] then []
    else if ps[0] == "" then NonEmpty(ps[1..])
    else [ps[0]] + NonEmpty(ps[1..])
  }

  /**
   * `' '.join([c for c in s.split(' ') if c])`: the words of `s`, kept apart
   * by exactly one space, with no space before the first or after the last.
   */
  function CollapseSpaces(s: string): (r: string)
    ensures WellSpaced(r)
    ensures NonEmpty(Split(s, ' ')) != [] ==> Split(r, ' ') == NonEmpty(Split(s, ' '))
    ensures NonEmpty(Split(s, ' ')) == [] ==> r == ""
  {
    var words := NonEmpty(Split(s, ' '));
    JoinWellSpaced(words);
    if words == [] then ""
    else
      SplitJoin(words, ' ');
      Join(words, ' ')
  }

  /** No leading, trailing or doubled space. */
  predicate WellSpaced(s: string)
  {
    && (|s| > 0 ==> s[0] != ' ' && s[|s| - 1] != ' ')
    && forall i :: 0 <= i < |s| - 1 && s[i] == ' ' ==> s[i + 1] != ' '
  }

  /** `s` with every `c` removed. */
  function RemoveAll(s: string, c: char): (r: string)
    ensures forall ch :: ch != c ==> (ch in r <==> ch in s)
    ensures c !in r
  {
    if s == [] then ""
    else if s[0] == c then RemoveAll(s[1..], c)
    else [s[0]] + RemoveAll(s[1..], c)
  }

  /** The concatenation of all pieces. */
  function Concat(ps: seq<string>): string
  {
    if ps == [] then "" else ps[0] + Concat(ps[1..])
  }

  lemma {:induction false} RemoveAllAppend(a: string, b: string, c: char)
    ensures RemoveAll(a + b, c) == RemoveAll(a, c) + RemoveAll(b, c)
    decreases |a|
  {
    if a != [] {
      assert (a + b)[1..] == a[1..] + b;
      RemoveAllAppend(a[1..], b, c);
    } else {
      assert a + b == b;
    }
  }

  lemma {:induction false} RemoveAllAbsent(a: string, c: char)
    requires c !in a
    ensures RemoveAll(a, c) == a
    decreases |a|
  {
    if a != [] {
      RemoveAllAbsent(a[1..], c);
      assert a == [a[0]] + a[1..];
    }
  }

  /** Removing the separator from a join of separator-free pieces concatenates the pieces. */
  lemma {:induction false} RemoveAllJoin(ps: seq<string>, c: char)
    requires forall p :: p in ps ==> c !in p
    ensures RemoveAll(Join(ps, c), c) == Concat(ps)
    decreases |ps|
  {
    if |ps| == 1 {
      RemoveAllAbsent(ps[0], c);
      assert ps[1..] == [];
    } else if |ps| > 1 {
      RemoveAllJoin(ps[1..], c);
      RemoveAllAppend(ps[0] + [c], Join(ps[1..], c), c);
      RemoveAllAppend(ps[0], [c], c);
      RemoveAllAbsent(ps[0], c);
    }
  }

  lemma {:induction false} ConcatNonEmpty(ps: seq<string>)
    ensures Concat(NonEmpty(ps)) == Concat(ps)
    decreases |ps|
  {
    if ps != [] {
      ConcatNonEmpty(ps[1..]);
    }
  }

  /** Space-free text, one space, then well-spaced text starting with a non-space, is well spaced. */
  lemma WellSpacedAround(a: string, b: string)
    requires a != [] && ' ' !in a
    requires b != [] && WellSpaced(b)
    ensures WellSpaced(a + [' '] + b)
  {
    var r := a + [' '] + b;
    assert r[0] == a[0] && a[0] in a;
    assert r[|r| - 1] == b[|b| - 1];
    forall i | 0 <= i < |a|
      ensures r[i] != ' '
    {
      assert r[i] == a[i] && a[i] in a;
    }
    forall j | 0 <= j < |b|
      ensures r[|a| + 1 + j] == b[j]
    {
    }
  }

  /** A join of non-empty, space-free pieces is well spaced. */
  lemma {:induction false} JoinWellSpaced(ps: seq<string>)
    requires forall p :: p in ps ==> p != "" && ' ' !in p
    ensures WellSpaced(Join(ps, ' '))
    ensures ps != [] ==> Join(ps, ' ') != []
    decreases |ps|
  {
    if |ps| > 1 {
      assert forall p :: p in ps[1..] ==> p in ps;
      JoinWellSpaced(ps[1..]);
      assert ps[0] in ps;
      WellSpacedAround(ps[0], Join(ps[1..], ' '));
    } else if |ps| == 1 {
      var a := ps[0];
      assert a in ps;
      forall i | 0 <= i < |a|
        ensures a[i] != ' '
      {
        assert a[i] in a;
      }
    }
  }

  /**
   * Collapsing spaces leaves no leading, trailing or doubled space, keeps
   * every other character in order, and keeps the words of `s` apart: the
   * result splits on spaces into exactly the non-empty pieces of `s`.
   */
  lemma CollapseSpacesTidy(s: string)
    ensures WellSpaced(CollapseSpaces(s))
    ensures RemoveAll(CollapseSpaces(s), ' ') == RemoveAll(s, ' ')
    ensures NonEmpty(Split(s, ' ')) != [] ==> Split(CollapseSpaces(s), ' ') == NonEmpty(Split(s, ' '))
    ensures NonEmpty(Split(s, ' ')) == [] ==> CollapseSpaces(s) == ""
  {
    var pieces := Split(s, ' ');
    JoinWellSpaced(NonEmpty(pieces));
    RemoveAllJoin(NonEmpty(pieces), ' ');
    ConcatNonEmpty(pieces);
    JoinSplit(s, ' ');
    RemoveAllJoin(pieces, ' ');
  }
}
