/** The pieces of Python's string and path library that the application relies on. */
module Text {

  /** Python's `s.replace(pat, rep)` for a non-empty pattern: scan from the left and
      replace each occurrence of `pat` that does not overlap one already replaced. */
  function Replace(s: string, pat: string, rep: string): string
    requires pat != []
    decreases |s|
  {
    if s == [] then []
    else if pat <= s then rep + Replace(s[|pat|..], pat, rep)
    else [s[0]] + Replace(s[1..], pat, rep)
  }

  /** Python's `s.endswith(suffix)`. */
  predicate EndsWith(s: string, suffix: string)
  {
    |suffix| <= |s| && s[|s| - |suffix|..] == suffix
  }

  /** The number of occurrences of `c` in `s`. */
  function Count(c: char, s: string): nat
  {
    if s == [] then 0 else (if s[0] == c then 1 else 0) + Count(c, s[1..])
  }

  /** `os.path.join(dir, name)` on Windows, where the application runs: a backslash is
      inserted unless `dir` is empty or already ends with a separator. */
  function JoinPath(dir: string, name: string): string
  {
    if dir == [] || dir[|dir| - 1] == '\\' || dir[|dir| - 1] == '/' then dir + name
    else dir + "\\" + name
  }

  lemma {:induction false} CountAppend(c: char, a: string, b: string)
    ensures Count(c, a + b) == Count(c, a) + Count(c, b)
  {
    if a == [] {
      assert a + b == b;
    } else {
      assert (a + b)[1..] == a[1..] + b;
      CountAppend(c, a[1..], b);
    }
  }

  lemma {:induction false} CountZero(c: char, s: string)
    ensures Count(c, s) == 0 <==> c !in s
  {
    if s != [] {
      CountZero(c, s[1..]);
      assert s == [s[0]] + s[1..];
    }
  }

  /** Joining onto a fixed directory loses nothing of the name. */
  lemma JoinPathInjective(dir: string, a: string, b: string)
    ensures JoinPath(dir, a) == JoinPath(dir, b) <==> a == b
  {
    var p := JoinPath(dir, []);
    assert JoinPath(dir, a) == p + a && JoinPath(dir, b) == p + b;
    if p + a == p + b {
      assert a == (p + a)[|p|..] && b == (p + b)[|p|..];
    }
  }

  /** A one-character pattern that does not occur leaves the string as it is. */
  lemma {:induction false} ReplaceCharAbsent(s: string, c: char, rep: string)
    requires c !in s
    ensures Replace(s, [c], rep) == s
  {
    if s != [] {
      assert s[0] != c;
      ReplaceCharAbsent(s[1..], c, rep);
    }
  }

  /** A one-character string is either the pattern, and is replaced, or is kept. */
  lemma ReplaceCharSingle(x: char, c: char, rep: string)
    ensures Replace([x], [c], rep) == if x == c then rep else [x]
  {
    assert [x][1..] == [];
    assert Replace([], [c], rep) == [];
    if x == c {
      assert [c] <= [x];
    } else {
      assert [x][0] != [c][0];
      assert !([c] <= [x]);
    }
  }

  /** Replacing one character by another maps the string one character at a time. */
  lemma {:induction false} ReplaceCharByChar(s: string, c: char, d: char)
    ensures var r := Replace(s, [c], [d]);
      && |r| == |s|
      && forall i :: 0 <= i < |r| ==> r[i] == (if s[i] == c then d else s[i])
    decreases |s|
  {
    if s != [] {
      ReplaceCharByChar(s[1..], c, d);
      var rest := Replace(s[1..], [c], [d]);
      if [c] <= s {
        assert s[0] == c;
        assert Replace(s, [c], [d]) == [d] + rest;
      } else {
        assert s[0] != c;
        assert Replace(s, [c], [d]) == [s[0]] + rest;
      }
    }
  }

  /** Replacing a one-character pattern distributes over concatenation. */
  lemma {:induction false} ReplaceCharAppend(a: string, b: string, c: char, rep: string)
    ensures Replace(a + b, [c], rep) == Replace(a, [c], rep) + Replace(b, [c], rep)
  {
    if a == [] {
      assert a + b == b;
    } else {
      var ab := a + b;
      assert ab[0] == a[0] && ab[1..] == a[1..] + b;
      assert [c] <= ab <==> a[0] == c;
      assert [c] <= a <==> a[0] == c;
      ReplaceCharAppend(a[1..], b, c, rep);
      if a[0] == c {
        calc {
          Replace(ab, [c], rep);
          rep + Replace(a[1..] + b, [c], rep);
          rep + (Replace(a[1..], [c], rep) + Replace(b, [c], rep));
          (rep + Replace(a[1..], [c], rep)) + Replace(b, [c], rep);
        }
      } else {
        calc {
          Replace(ab, [c], rep);
          [a[0]] + Replace(a[1..] + b, [c], rep);
          [a[0]] + (Replace(a[1..], [c], rep) + Replace(b, [c], rep));
          ([a[0]] + Replace(a[1..], [c], rep)) + Replace(b, [c], rep);
        }
      }
    }
  }

  /** A prefix that holds no first character of the pattern is copied unchanged. */
  lemma {:induction false} ReplaceSkip(q: string, rest: string, pat: string, rep: string)
    requires pat != []
    requires forall i :: 0 <= i < |q| ==> q[i] != pat[0]
    ensures Replace(q + rest, pat, rep) == q + Replace(rest, pat, rep)
  {
    if q == [] {
      assert q + rest == rest;
    } else {
      assert (q + rest)[0] == q[0];
      assert (q + rest)[1..] == q[1..] + rest;
      ReplaceSkip(q[1..], rest, pat, rep);
    }
  }

  /** An occurrence at the front is replaced and the scan continues after it. */
  lemma ReplaceHit(rest: string, pat: string, rep: string)
    requires pat != []
    ensures Replace(pat + rest, pat, rep) == rep + Replace(rest, pat, rep)
  {
    assert (pat + rest)[|pat|..] == rest;
  }

  /** One piece at the front of the string: when it is the pattern it is replaced, and when
      the pattern does not start at its first character and its first character of the
      pattern appears nowhere after that, it is copied unchanged. */
  lemma ReplacePiece(p: string, rest: string, pat: string, rep: string)
    requires pat != [] && p != []
    requires forall i :: 1 <= i < |p| ==> p[i] != pat[0]
    requires p == pat || !(pat <= p + rest)
    ensures Replace(p + rest, pat, rep) == (if p == pat then rep else p) + Replace(rest, pat, rep)
  {
    if p == pat {
      ReplaceHit(rest, pat, rep);
    } else {
      assert (p + rest)[1..] == p[1..] + rest;
      ReplaceSkip(p[1..], rest, pat, rep);
      assert [p[0]] + p[1..] == p;
    }
  }
}
