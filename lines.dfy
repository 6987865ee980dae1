/**
 * Newline-separated text: splitting a string into the segments between its
 * newlines, and joining lines back together.
 */
module Lines {

  // ---------------------------------------------------------------------
  // Splitting on "\n", as String.prototype.split("\n") and str.split("\n") do
  // ---------------------------------------------------------------------

  /** The segments of `s` between newlines; there is always one more segment than newlines. */
  function Split(s: string): (r: seq<string>)
    ensures |r| >= 1
    decreases |s|
  {
    if s == [] then [[]]
    else
      var rest := Split(s[1..]);
      if s[0] == '\n' then [[]] + rest
      else [[s[0]] + rest[0]] + rest[1..]
  }

  /** No segment of a list contains a newline. */
  ghost predicate NoNewlines(ls: seq<string>) {
    forall i :: 0 <= i < |ls| ==> '\n' !in ls[i]
  }

  /** Every line followed by its "\n", concatenated. */
  function Terminated(ls: seq<string>): string {
    if ls == [] then [] else ls[0] + "\n" + Terminated(ls[1..])
  }

  /** The newline-terminated segments of `s`: the lines a reader of `s` can complete. */
  function CompleteLines(s: string): seq<string> {
    var parts := Split(s);
    parts[..|parts| - 1]
  }

  /** The text after the last newline of `s`. */
  function Pending(s: string): string {
    var parts := Split(s);
    parts[|parts| - 1]
  }

  lemma {:induction false} SplitWithoutNewline(p: string)
    requires '\n' !in p
    ensures Split(p) == [p]
    decreases |p|
  {
    if p != [] {
      SplitWithoutNewline(p[1..]);
      assert [p[0]] + p[1..] == p;
    }
  }

  lemma {:induction false} SplitAfterLine(l: string, t: string)
    requires '\n' !in l
    ensures Split(l + "\n" + t) == [l] + Split(t)
    decreases |l|
  {
    if l == [] {
      assert l + "\n" + t == ['\n'] + t;
      assert (['\n'] + t)[1..] == t;
    } else {
      var s := l + "\n" + t;
      assert s[0] == l[0] && s[1..] == l[1..] + "\n" + t;
      SplitAfterLine(l[1..], t);
      assert [l[0]] + l[1..] == l;
    }
  }

  /** Splitting undoes terminating: the inverse direction of SplitReassembles. */
  lemma {:induction false} SplitOfTerminated(ls: seq<string>, p: string)
    requires NoNewlines(ls) && '\n' !in p
    ensures Split(Terminated(ls) + p) == ls + [p]
    decreases |ls|
  {
    if ls == [] {
      assert Terminated(ls) + p == p;
      SplitWithoutNewline(p);
    } else {
      assert Terminated(ls) + p == ls[0] + "\n" + (Terminated(ls[1..]) + p);
      SplitAfterLine(ls[0], Terminated(ls[1..]) + p);
      SplitOfTerminated(ls[1..], p);
      assert ls == [ls[0]] + ls[1..];
    }
  }

  /** No segment holds a newline. */
  lemma {:induction false} SplitHasNoNewlines(s: string)
    ensures NoNewlines(Split(s))
    decreases |s|
  {
    if s != [] {
      SplitHasNoNewlines(s[1..]);
      var rest := Split(s[1..]);
      var r := Split(s);
      if s[0] == '\n' {
        forall i | 0 <= i < |r| ensures '\n' !in r[i] {
          if i > 0 { assert r[i] == rest[i - 1]; }
        }
      } else {
        assert '\n' !in [s[0]] + rest[0];
        forall i | 0 <= i < |r| ensures '\n' !in r[i] {
          if i > 0 { assert r[i] == rest[i]; }
        }
      }
    }
  }

  /** Splitting loses nothing: the segments, each but the last followed by "\n", give back `s`. */
  lemma {:induction false} SplitReassembles(s: string)
    ensures NoNewlines(Split(s))
    ensures Terminated(CompleteLines(s)) + Pending(s) == s
    decreases |s|
  {
    SplitHasNoNewlines(s);
    if s != [] {
      SplitReassembles(s[1..]);
      var rest := Split(s[1..]);
      if s[0] == '\n' {
        assert Split(s) == [[]] + rest;
        assert CompleteLines(s) == [[]] + CompleteLines(s[1..]);
        assert Terminated(CompleteLines(s)) == "\n" + Terminated(CompleteLines(s[1..]));
      } else {
        if |rest| == 1 {
          assert Split(s) == [[s[0]] + rest[0]];
          assert CompleteLines(s) == [];
        } else {
          var cl := CompleteLines(s[1..]);
          assert cl == rest[..|rest| - 1];
          assert CompleteLines(s) == [[s[0]] + rest[0]] + cl[1..];
          assert Terminated(CompleteLines(s)) == [s[0]] + rest[0] + "\n" + Terminated(cl[1..]);
          assert Terminated(cl) == rest[0] + "\n" + Terminated(cl[1..]);
        }
        assert s == [s[0]] + s[1..];
      }
    }
  }

  lemma {:induction false} TerminatedAppend(a: seq<string>, b: seq<string>)
    ensures Terminated(a + b) == Terminated(a) + Terminated(b)
    decreases |a|
  {
    if a != [] {
      assert (a + b)[1..] == a[1..] + b;
      TerminatedAppend(a[1..], b);
    } else {
      assert a + b == b;
    }
  }

  lemma NoNewlinesAppend(a: seq<string>, b: seq<string>)
    requires NoNewlines(a) && NoNewlines(b)
    ensures NoNewlines(a + b)
  {
    forall i | 0 <= i < |a + b| ensures '\n' !in (a + b)[i] {
      if i < |a| { assert (a + b)[i] == a[i]; } else { assert (a + b)[i] == b[i - |a|]; }
    }
  }

  /** A non-empty list is its front followed by its last element, each free of newlines when the list is. */
  lemma FrontAndLast(parts: seq<string>)
    requires |parts| >= 1
    ensures parts == parts[..|parts| - 1] + [parts[|parts| - 1]]
    ensures NoNewlines(parts) ==> NoNewlines(parts[..|parts| - 1]) && '\n' !in parts[|parts| - 1]
  {
    var front := parts[..|parts| - 1];
    forall i | 0 <= i < |front| ensures front[i] == parts[i] {
    }
  }

  /** What SplitReassembles says, in terms of CompleteLines and Pending alone. */
  lemma SplitParts(s: string)
    ensures Split(s) == CompleteLines(s) + [Pending(s)]
    ensures NoNewlines(CompleteLines(s)) && '\n' !in Pending(s)
    ensures Terminated(CompleteLines(s)) + Pending(s) == s
  {
    SplitReassembles(s);
    FrontAndLast(Split(s));
  }

  /** The lines and pending text of a string are determined by its terminated form. */
  lemma PartsOfTerminated(ls: seq<string>, p: string)
    requires NoNewlines(ls) && '\n' !in p
    ensures CompleteLines(Terminated(ls) + p) == ls && Pending(Terminated(ls) + p) == p
  {
    SplitOfTerminated(ls, p);
    assert (ls + [p])[..|ls|] == ls;
  }

  /**
   * Framing is incremental: the lines completed by `a + b` are those completed
   * by `a`, then those completed by `a`'s pending text followed by `b`.
   */
  lemma CompleteLinesAppend(a: string, b: string)
    ensures CompleteLines(a + b) == CompleteLines(a) + CompleteLines(Pending(a) + b)
    ensures Pending(a + b) == Pending(Pending(a) + b)
  {
    var la, pa := CompleteLines(a), Pending(a);
    var lb, pb := CompleteLines(pa + b), Pending(pa + b);
    SplitParts(a);
    SplitParts(pa + b);
    TerminatedAppend(la, lb);
    AppendRegroups(Terminated(la), pa, b, Terminated(lb), pb);
    NoNewlinesAppend(la, lb);
    PartsOfTerminated(la + lb, pb);
  }

  /** Regrouping a concatenation whose middle part is rewritten by its split form. */
  lemma AppendRegroups(t: string, p: string, b: string, u: string, q: string)
    requires p + b == u + q
    ensures (t + p) + b == (t + u) + q
  {
    assert (t + p) + b == t + (p + b);
    assert t + (u + q) == (t + u) + q;
  }

  /** `"\n".join(rows)`: the rows with a newline between each two, none at the end. */
  function Join(rows: seq<string>): string {
    if rows == [] then [] else Terminated(rows[..|rows| - 1]) + rows[|rows| - 1]
  }

  /** Joined rows without newlines of their own split back into exactly those rows. */
  lemma SplitOfJoin(rows: seq<string>)
    requires |rows| > 0 && NoNewlines(rows)
    ensures Split(Join(rows)) == rows
  {
    var init := rows[..|rows| - 1];
    assert NoNewlines(init) by {
      forall i | 0 <= i < |init| ensures '\n' !in init[i] { assert init[i] == rows[i]; }
    }
    SplitOfTerminated(init, rows[|rows| - 1]);
    assert init + [rows[|rows| - 1]] == rows;
  }

  /** Joined rows end with the last row's last character, so the text never ends in a newline. */
  lemma JoinHasNoTrailingNewline(rows: seq<string>)
    requires |rows| > 0 && NoNewlines(rows) && rows[|rows| - 1] != []
    ensures |Join(rows)| > 0 && Join(rows)[|Join(rows)| - 1] != '\n'
  {
    var last := rows[|rows| - 1];
    var j := Join(rows);
    assert j[|j| - 1] == last[|last| - 1];
    assert last[|last| - 1] in last;
  }
}
