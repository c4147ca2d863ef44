/**
  `like_pattern` of `src/db/messages.rs`, read by the SQL LIKE matcher with `ESCAPE '\'`.
*/
module LikePattern {
  import opened Text

  /** `str::replace` of one character by a string. */
  function Replace(s: string, c: char, to: string): string {
    if s == [] then [] else (if s[0] == c then to else [s[0]]) + Replace(s[1..], c, to)
  }

  /** Backslashes first, then the two wildcards; the result between two `%`. */
  function Pattern(query: string): string {
    var escaped := Replace(Replace(Replace(query, '\\', "\\\\"), '%', "\\%"), '_', "\\_");
    "%" + escaped + "%"
  }

  /** The LIKE matcher: `%` any run, `_` any one character, a backslash takes the next one literally. */
  predicate Like(p: string, b: string)
    decreases |p| + |b|
  {
    if p == [] then b == []
    else if p[0] == '%' then Like(p[1..], b) || (b != [] && Like(p, b[1..]))
    else if p[0] == '_' then b != [] && Like(p[1..], b[1..])
    else if p[0] == '\\' then |p| > 1 && b != [] && b[0] == p[1] && Like(p[2..], b[1..])
    else b != [] && b[0] == p[0] && Like(p[1..], b[1..])
  }

  ghost predicate IsSubstring(q: string, b: string) { exists i :: OccursAt(b, q, i) }

  // ---------------------------------------------------------------- three passes are one

  function EscapeChar(c: char): string {
    if c == '\\' || c == '%' || c == '_' then ['\\', c] else [c]
  }

  function Escape(q: string): string {
    if q == [] then [] else EscapeChar(q[0]) + Escape(q[1..])
  }

  lemma {:induction false} ReplaceConcat(s: string, t: string, c: char, to: string)
    ensures Replace(s + t, c, to) == Replace(s, c, to) + Replace(t, c, to)
  {
    if s == [] {
      assert s + t == t;
    } else {
      ReplaceConcat(s[1..], t, c, to);
      assert (s + t)[1..] == s[1..] + t && (s + t)[0] == s[0];
      var head := if s[0] == c then to else [s[0]];
      assert Replace(s + t, c, to) == head + (Replace(s[1..], c, to) + Replace(t, c, to));
    }
  }

  lemma ReplaceOne(x: char, c: char, to: string)
    ensures Replace([x], c, to) == if x == c then to else [x]
  {
  }

  lemma EscapeOne(x: char)
    ensures Replace(Replace(Replace([x], '\\', "\\\\"), '%', "\\%"), '_', "\\_") == EscapeChar(x)
  {
    ReplaceOne(x, '\\', "\\\\");
    ReplaceOne('\\', '%', "\\%");
    ReplaceOne('\\', '_', "\\_");
    if x == '\\' {
      ReplaceConcat("\\", "\\", '%', "\\%");
      ReplaceConcat("\\", "\\", '_', "\\_");
    } else {
      ReplaceOne(x, '%', "\\%");
      ReplaceOne(x, '_', "\\_");
      ReplaceOne('%', '_', "\\_");
      ReplaceConcat("\\", "%", '_', "\\_");
    }
  }

  /** The three successive replacements are one single-pass escape: no pass escapes again what an
      earlier one produced. */
  lemma {:induction false} ThreePassesAreOne(q: string)
    ensures Replace(Replace(Replace(q, '\\', "\\\\"), '%', "\\%"), '_', "\\_") == Escape(q)
  {
    if q != [] {
      var x, rest := [q[0]], q[1..];
      assert q == x + rest;
      ReplaceConcat(x, rest, '\\', "\\\\");
      ReplaceConcat(Replace(x, '\\', "\\\\"), Replace(rest, '\\', "\\\\"), '%', "\\%");
      ReplaceConcat(Replace(Replace(x, '\\', "\\\\"), '%', "\\%"), Replace(Replace(rest, '\\', "\\\\"), '%', "\\%"), '_', "\\_");
      EscapeOne(q[0]);
      ThreePassesAreOne(rest);
    }
  }

  // ---------------------------------------------------------------- what the pattern matches

  lemma EscapedCharMatches(c: char, rest: string, b: string)
    ensures Like(EscapeChar(c) + rest, b) <==> b != [] && b[0] == c && Like(rest, b[1..])
  {
  }

  lemma {:induction false} EscapedMatchesPrefix(q: string, rest: string, b: string)
    ensures Like(Escape(q) + rest, b) <==> OccursAt(b, q, 0) && Like(rest, b[|q|..])
  {
    if q == [] {
      assert Escape(q) + rest == rest && b[0..] == b;
    } else {
      assert Escape(q) + rest == EscapeChar(q[0]) + (Escape(q[1..]) + rest);
      EscapedCharMatches(q[0], Escape(q[1..]) + rest, b);
      if b != [] {
        EscapedMatchesPrefix(q[1..], rest, b[1..]);
        assert |q| <= |b| ==> b[1..][|q| - 1..] == b[|q|..] && b[0..|q|][1..] == b[1..][0..|q| - 1];
        assert |q| <= |b| && b[0] == q[0] && b[1..][0..|q| - 1] == q[1..] ==> b[0..|q|] == q by {
          assert q == [q[0]] + q[1..];
          assert |q| <= |b| ==> b[0..|q|] == [b[0]] + b[1..][0..|q| - 1];
        }
      }
    }
  }

  lemma {:induction false} PercentMatchesAll(b: string)
    ensures Like("%", b)
  {
    if b == [] {
      assert "%"[1..] == [];
      assert Like([], []);
    } else {
      PercentMatchesAll(b[1..]);
    }
  }

  lemma {:induction false} PercentSkips(p: string, b: string)
    ensures Like("%" + p, b) <==> exists i :: 0 <= i <= |b| && Like(p, b[i..])
  {
    assert ("%" + p)[1..] == p && b[0..] == b;
    if b != [] {
      PercentSkips(p, b[1..]);
      forall i | 1 <= i <= |b|
        ensures b[1..][i - 1..] == b[i..]
      {
      }
      if Like("%" + p, b[1..]) {
        var i :| 0 <= i <= |b[1..]| && Like(p, b[1..][i..]);
        assert b[i + 1..] == b[1..][i..];
      }
      if exists i :: 0 <= i <= |b| && Like(p, b[i..]) {
        var i :| 0 <= i <= |b| && Like(p, b[i..]);
        if i > 0 {
          assert Like(p, b[1..][i - 1..]);
        }
      }
    } else {
      assert Like("%" + p, b) <==> Like(p, b);
    }
  }

  /** For all strings: the pattern built from `q` matches exactly the bodies that contain `q`. */
  lemma PatternIsExact(q: string, b: string)
    ensures Like(Pattern(q), b) <==> IsSubstring(q, b)
  {
    ThreePassesAreOne(q);
    assert Pattern(q) == "%" + (Escape(q) + "%");
    PercentSkips(Escape(q) + "%", b);
    forall i | 0 <= i <= |b|
      ensures Like(Escape(q) + "%", b[i..]) <==> OccursAt(b, q, i)
    {
      EscapedMatchesPrefix(q, "%", b[i..]);
      if i + |q| <= |b| {
        assert b[i..][0..|q|] == b[i..i + |q|];
        PercentMatchesAll(b[i..][|q|..]);
      }
    }
  }
}
