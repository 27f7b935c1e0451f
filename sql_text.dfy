/** SQL statement text assembled from pieces: a fixed text followed by
    clauses, each clause ending in the one `?` placeholder it contains, and
    MySQL `#` comments, which run to the end of the line. These facts hold
    for any such pieces; the handlers instantiate them with their own texts. */
module SqlText {
  import opened Text

  /** A clause: text free of `?`, followed by a single `?`. */
  predicate IsClause(c: string)
  {
    |c| > 0 && c[|c| - 1] == '?' && '?' !in c[..|c| - 1]
  }

  lemma ClauseOfBody(body: string)
    requires '?' !in body
    ensures IsClause(body + "?")
  {
    assert (body + "?")[..|body|] == body;
  }

  /** The pieces of `cs`, concatenated in order. */
  function Join(cs: seq<string>): string
  {
    if cs == [] then "" else Join(cs[..|cs| - 1]) + cs[|cs| - 1]
  }

  lemma {:induction false} JoinAppend(a: seq<string>, b: seq<string>)
    ensures Join(a + b) == Join(a) + Join(b)
    decreases |b|
  {
    if b == [] {
      assert a + b == a;
    } else {
      var b' := b[..|b| - 1];
      assert (a + b)[..|a + b| - 1] == a + b';
      JoinAppend(a, b');
    }
  }

  /** A character absent from every piece is absent from their concatenation. */
  lemma {:induction false} JoinAvoids(cs: seq<string>, ch: char)
    requires forall c :: c in cs ==> ch !in c
    ensures ch !in Join(cs)
  {
    if cs != [] {
      assert forall c :: c in cs[..|cs| - 1] ==> c in cs;
      JoinAvoids(cs[..|cs| - 1], ch);
    }
  }

  /** A concatenation of clauses holds one `?` per clause. */
  lemma {:induction false} JoinCount(cs: seq<string>)
    requires forall c :: c in cs ==> IsClause(c)
    ensures Count(Join(cs), '?') == |cs|
  {
    if cs != [] {
      var init, c := cs[..|cs| - 1], cs[|cs| - 1];
      assert forall x :: x in init ==> x in cs;
      JoinCount(init);
      assert IsClause(c);
      CountAppend(Join(init), c, '?');
      assert c == c[..|c| - 1] + "?";
      CountAppend(c[..|c| - 1], "?", '?');
      CountAbsent(c[..|c| - 1], '?');
    }
  }

  /** The `?` at index `e` of `pre + Join(cs)` closes clause `m`: the text up
      to and including it is `pre` followed by the first m+1 clauses. */
  predicate ClosesClause(pre: string, cs: seq<string>, e: int, m: int)
  {
    0 <= m < |cs| && 0 <= e < |pre + Join(cs)| && (pre + Join(cs))[..e + 1] == pre + Join(cs[..m + 1])
  }

  /** Every `?` after a `?`-free prefix closes one of the clauses. */
  lemma {:induction false} PlaceholderEndsClause(pre: string, cs: seq<string>, e: int)
    requires '?' !in pre
    requires forall c :: c in cs ==> IsClause(c)
    requires 0 <= e < |pre + Join(cs)| && (pre + Join(cs))[e] == '?'
    ensures exists m :: ClosesClause(pre, cs, e, m)
    decreases |cs|
  {
    var s := pre + Join(cs);
    if cs == [] {
      assert false;
    } else {
      var init, c := cs[..|cs| - 1], cs[|cs| - 1];
      var head := pre + Join(init);
      assert s == head + c;
      assert IsClause(c);
      if e < |head| {
        assert head[e] == '?';
        assert forall x :: x in init ==> x in cs;
        PlaceholderEndsClause(pre, init, e);
        var m :| ClosesClause(pre, init, e, m);
        assert init[..m + 1] == cs[..m + 1];
        assert s[..e + 1] == head[..e + 1];
        assert ClosesClause(pre, cs, e, m);
      } else if e < |s| - 1 {
        assert false;
      } else {
        assert s[..e + 1] == s;
        assert cs[..|cs| - 1 + 1] == cs;
        assert ClosesClause(pre, cs, e, |cs| - 1);
      }
    }
  }

  /** The `?` closing clause `m` is preceded by exactly m placeholders, and
      the text up to it ends with clause `m`. */
  lemma PlaceholderIndex(pre: string, cs: seq<string>, e: int, m: int)
    requires '?' !in pre
    requires forall c :: c in cs ==> IsClause(c)
    requires ClosesClause(pre, cs, e, m)
    ensures Count((pre + Join(cs))[..e], '?') == m
    ensures EndsWith((pre + Join(cs))[..e + 1], cs[m])
  {
    var s := pre + Join(cs);
    var upto := s[..e + 1];
    var first := cs[..m + 1];
    assert forall x :: x in first ==> x in cs;
    assert first[..m] == cs[..m];
    assert upto == (pre + Join(cs[..m])) + cs[m];
    CountAppend(pre, Join(first), '?');
    CountAbsent(pre, '?');
    JoinCount(first);
    assert upto[..e] == s[..e];
    assert upto[|upto| - 1] == '?' by {
      assert cs[m] in cs;
    }
  }

  /** Position `i` of `s` lies inside a `#` comment: a `#` occurs before it
      with no newline in between. */
  predicate InComment(s: string, i: int)
    requires 0 <= i <= |s|
  {
    exists j | 0 <= j < i :: s[j] == '#' && '\n' !in s[j..i]
  }

  /** Text after a newline that is itself free of `#` is outside every comment. */
  lemma CommentEndsAtNewline(x: string, t: string, i: int)
    requires '#' !in t
    requires |x| + 1 <= i <= |x + "\n" + t|
    ensures !InComment(x + "\n" + t, i)
  {
    var s := x + "\n" + t;
    var nl := |x|;
    assert s[nl] == '\n';
    forall j | 0 <= j < i && s[j] == '#'
      ensures '\n' in s[j..i]
    {
      if j > nl {
        assert false;
      }
      assert s[j..i][nl - j] == '\n';
    }
  }

  // Statements: a fixed base, clauses, a fixed suffix

  function Statement(base: string, cs: seq<string>, suffix: string): string
  {
    base + Join(cs) + suffix
  }

  /** The base and the suffix hold no placeholder and every clause is one. */
  predicate WellFormedParts(base: string, cs: seq<string>, suffix: string)
  {
    '?' !in base && '?' !in suffix && forall c :: c in cs ==> IsClause(c)
  }

  lemma StatementEnds(base: string, cs: seq<string>, suffix: string)
    ensures StartsWith(Statement(base, cs, suffix), base)
    ensures EndsWith(Statement(base, cs, suffix), suffix)
  {
    var s := Statement(base, cs, suffix);
    assert s[..|base|] == base;
    assert s[|s| - |suffix|..] == suffix;
  }

  lemma StatementCount(base: string, cs: seq<string>, suffix: string)
    requires WellFormedParts(base, cs, suffix)
    ensures Count(Statement(base, cs, suffix), '?') == |cs|
  {
    CountAppend(base + Join(cs), suffix, '?');
    CountAppend(base, Join(cs), '?');
    CountAbsent(base, '?');
    CountAbsent(suffix, '?');
    JoinCount(cs);
  }

  /** What occurs in the base occurs, at the same index, in the statement. */
  lemma BaseOccurs(base: string, cs: seq<string>, suffix: string, t: string, i: int)
    requires OccursAt(base, t, i)
    ensures OccursAt(Statement(base, cs, suffix), t, i)
  {
    OccursInPrefix(base, Join(cs) + suffix, t, i);
    assert Statement(base, cs, suffix) == base + (Join(cs) + suffix);
  }

  lemma JoinOne(c: string)
    ensures Join([c]) == c
  {
    assert [c][..0] == [];
  }

  /** What occurs in the suffix occurs in the statement, shifted past the
      base and the clauses. */
  lemma SuffixOccurs(base: string, cs: seq<string>, suffix: string, t: string, i: int)
    requires OccursAt(suffix, t, i)
    ensures OccursAt(Statement(base, cs, suffix), t, |base + Join(cs)| + i)
  {
    var head := base + Join(cs);
    assert Statement(base, cs, suffix)[|head| + i..|head| + i + |t|] == suffix[i..i + |t|];
  }

  /** When neither the base nor a clause holds a `#`, no placeholder of the
      statement is commented out. */
  lemma PlaceholdersUncommented(base: string, cs: seq<string>, suffix: string, e: int)
    requires WellFormedParts(base, cs, suffix)
    requires '#' !in base && forall c :: c in cs ==> '#' !in c
    requires 0 <= e < |Statement(base, cs, suffix)| && Statement(base, cs, suffix)[e] == '?'
    ensures !InComment(Statement(base, cs, suffix), e)
  {
    var s := Statement(base, cs, suffix);
    var head := base + Join(cs);
    if e >= |head| {
      assert false;
    }
    JoinAvoids(cs, '#');
    forall j | 0 <= j < e
      ensures s[j] != '#'
    {
      assert s[j] == head[j];
    }
  }

  /** The n-th `?` of a statement (from 0) closes its n-th clause. */
  lemma StatementPlaceholder(base: string, cs: seq<string>, suffix: string, e: int)
    requires WellFormedParts(base, cs, suffix)
    requires 0 <= e < |Statement(base, cs, suffix)| && Statement(base, cs, suffix)[e] == '?'
    ensures var s := Statement(base, cs, suffix);
            Count(s[..e], '?') < |cs| && EndsWith(s[..e + 1], cs[Count(s[..e], '?')])
  {
    var s := Statement(base, cs, suffix);
    var head := base + Join(cs);
    if e >= |head| {
      assert false;
    }
    assert head[e] == '?';
    PlaceholderEndsClause(base, cs, e);
    var m :| ClosesClause(base, cs, e, m);
    PlaceholderIndex(base, cs, e, m);
    assert head[..e] == s[..e];
    assert head[..e + 1] == s[..e + 1];
  }

  /** Neither of `p` and any clause of `cs` ends with the other unless they are equal. */
  predicate SuffixFree(p: string, cs: seq<string>)
  {
    forall c :: c in cs && (EndsWith(p, c) || EndsWith(c, p)) ==> c == p
  }

  /** A clause of the statement occurs in it. */
  lemma ClauseOccurs(base: string, cs: seq<string>, suffix: string, j: int)
    requires 0 <= j < |cs|
    ensures Contains(Statement(base, cs, suffix), cs[j])
  {
    var p := cs[j];
    assert cs == cs[..j] + [p] + cs[j + 1..];
    JoinAppend(cs[..j] + [p], cs[j + 1..]);
    JoinAppend(cs[..j], [p]);
    assert Join([p]) == p by {
      assert [p][..0] == [];
    }
    assert Statement(base, cs, suffix) == (base + Join(cs[..j])) + p + (Join(cs[j + 1..]) + suffix);
    OccursInMiddle(base + Join(cs[..j]), p, Join(cs[j + 1..]) + suffix);
  }

  /** A clause that no clause of the statement shadows as a suffix occurs in
      the statement exactly when it is one of its clauses. */
  lemma StatementContains(base: string, cs: seq<string>, suffix: string, p: string)
    requires WellFormedParts(base, cs, suffix) && IsClause(p) && SuffixFree(p, cs)
    ensures Contains(Statement(base, cs, suffix), p) <==> p in cs
  {
    var s := Statement(base, cs, suffix);
    if p in cs {
      var j :| 0 <= j < |cs| && cs[j] == p;
      ClauseOccurs(base, cs, suffix, j);
    }
    if Contains(s, p) {
      var i :| 0 <= i <= |s| - |p| && OccursAt(s, p, i);
      var e := i + |p| - 1;
      OccurrenceEnd(s, p, i);
      StatementPlaceholder(base, cs, suffix, e);
      var c := cs[Count(s[..e], '?')];
      if |c| <= |p| {
        SuffixesNest(s[..e + 1], p, c);
      } else {
        SuffixesNest(s[..e + 1], c, p);
      }
    }
  }

  /** When the base ends with a newline followed by `#`-free text, and the
      clauses and the suffix are `#`-free, nothing after the base is commented out. */
  lemma StatementUncommented(x: string, indent: string, cs: seq<string>, suffix: string, i: int)
    requires '#' !in indent && '#' !in suffix && forall c :: c in cs ==> '#' !in c
    requires |x + "\n" + indent| <= i <= |Statement(x + "\n" + indent, cs, suffix)|
    ensures !InComment(Statement(x + "\n" + indent, cs, suffix), i)
  {
    JoinAvoids(cs, '#');
    var t := indent + Join(cs) + suffix;
    assert Statement(x + "\n" + indent, cs, suffix) == x + "\n" + t;
    CommentEndsAtNewline(x, t, i);
  }

  /** A suffix ending in a character found nowhere before it occurs only at the end. */
  lemma StatementSuffixOnce(base: string, cs: seq<string>, body: string, ch: char, i: int)
    requires ch !in base && ch !in body && forall c :: c in cs ==> ch !in c
    requires OccursAt(Statement(base, cs, body + [ch]), body + [ch], i)
    ensures i == |Statement(base, cs, body + [ch])| - |body| - 1
  {
    var s := Statement(base, cs, body + [ch]);
    JoinAvoids(cs, ch);
    assert s[..|s| - 1] == base + Join(cs) + body;
    OnlyAsSuffix(s, body + [ch], i);
  }

  /** Appending a clause to a statement text built so far. */
  lemma ExtendWith(pre: string, cs: seq<string>, c: string, sql: string)
    requires sql == pre + Join(cs)
    ensures sql + c == pre + Join(cs + [c])
  {
    JoinSnoc(cs, c);
    assert pre + Join(cs) + c == pre + (Join(cs) + c);
  }

  lemma JoinSnoc(cs: seq<string>, c: string)
    ensures Join(cs + [c]) == Join(cs) + c
  {
    assert (cs + [c])[..|cs|] == cs;
  }
}
