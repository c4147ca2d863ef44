/**
  `pg_sql` of `src/db/new_chats.rs`: `?` placeholders rewritten to `$1..$n`, and what either text
  binds its parameters to.
*/
module Placeholders {
  import opened Wrappers

  predicate IsDigit(c: char) { '0' <= c <= '9' }

  /** Decimal text of a number, as `to_string` prints it. */
  function Decimal(n: nat): (s: string)
    ensures s != [] && forall i :: 0 <= i < |s| ==> IsDigit(s[i])
  {
    var last := ['0' + (n % 10) as char];
    if n < 10 then last else Decimal(n / 10) + last
  }

  /** The rewritten rest of a statement after `n` placeholders. */
  function Rewrite(sql: string, n: nat): string {
    if sql == [] then []
    else if sql[0] == '?' then "$" + Decimal(n + 1) + Rewrite(sql[1..], n + 1)
    else [sql[0]] + Rewrite(sql[1..], n)
  }

  /** `pg_sql` */
  method PgSql(sql: string) returns (out: string)
    ensures out == Rewrite(sql, 0)
  {
    out := "";
    var n := 0;
    var i := 0;
    while i < |sql|
      invariant i <= |sql| && n >= 0
      invariant out + Rewrite(sql[i..], n) == Rewrite(sql, 0)
    {
      var c := sql[i];
      assert sql[i..][1..] == sql[i + 1..];
      ghost var done := out;
      if c == '?' {
        n := n + 1;
        out := out + "$";
        out := out + Decimal(n);
        assert out + Rewrite(sql[i + 1..], n) == done + ("$" + Decimal(n) + Rewrite(sql[i + 1..], n));
      } else {
        out := out + [c];
        assert out + Rewrite(sql[i + 1..], n) == done + ([c] + Rewrite(sql[i + 1..], n));
      }
      i := i + 1;
    }
    assert out + [] == out;
  }

  // ---------------------------------------------------------------- what a text binds

  /** A statement with its parameters in place. */
  datatype Token = Text(c: char) | Param(value: int)

  function Prepend(t: Token, rest: Option<seq<Token>>): Option<seq<Token>> {
    if rest.None? then None else Some([t] + rest.value)
  }

  /** MySQL and SQLite: the k-th `?` is parameter k; too few parameters is an error. */
  function BindMarks(sql: string, params: seq<int>, k: nat): Option<seq<Token>> {
    if sql == [] then Some([])
    else if sql[0] != '?' then Prepend(Text(sql[0]), BindMarks(sql[1..], params, k))
    else if k >= |params| then None
    else Prepend(Param(params[k]), BindMarks(sql[1..], params, k + 1))
  }

  /** Length of the run of digits a text starts with. */
  function DigitRun(s: string): (k: nat)
    ensures k <= |s|
    ensures forall i :: 0 <= i < k ==> IsDigit(s[i])
    ensures k < |s| ==> !IsDigit(s[k])
  {
    if s == [] || !IsDigit(s[0]) then 0 else 1 + DigitRun(s[1..])
  }

  function DigitValue(c: char): nat
    requires IsDigit(c)
  {
    c as int - '0' as int
  }

  function ValueOf(digits: string): nat
    requires forall i :: 0 <= i < |digits| ==> IsDigit(digits[i])
  {
    if digits == [] then 0
    else ValueOf(digits[..|digits| - 1]) * 10 + DigitValue(digits[|digits| - 1])
  }

  /** Postgres: `$` and the digits after it refer to a parameter by position; `$` alone is text. */
  function BindNumbers(sql: string, params: seq<int>): Option<seq<Token>> {
    if sql == [] then Some([])
    else if sql[0] != '$' || DigitRun(sql[1..]) == 0 then Prepend(Text(sql[0]), BindNumbers(sql[1..], params))
    else
      var k := DigitRun(sql[1..]);
      var n := ValueOf(sql[1..][..k]);
      if n == 0 || n > |params| then None
      else Prepend(Param(params[n - 1]), BindNumbers(sql[1 + k..], params))
  }

  /** Nothing that the rewriting could turn into another reference: no digit right after `?` or `$`. */
  predicate IsClean(sql: string) {
    forall i :: 0 <= i < |sql| - 1 && (sql[i] == '?' || sql[i] == '$') ==> !IsDigit(sql[i + 1])
  }

  ghost predicate SameBinding(sql: string) {
    forall params: seq<int> :: BindNumbers(Rewrite(sql, 0), params) == BindMarks(sql, params, 0)
  }

  // ---------------------------------------------------------------- decimal text

  lemma {:induction false} DecimalValue(n: nat)
    ensures ValueOf(Decimal(n)) == n
  {
    var s := Decimal(n);
    if n >= 10 {
      DecimalValue(n / 10);
      assert s[..|s| - 1] == Decimal(n / 10);
    } else {
      assert s[..|s| - 1] == [];
    }
  }

  lemma {:induction false} MoreDigitsLarger(a: string, b: string)
    requires forall i :: 0 <= i < |a| ==> IsDigit(a[i])
    requires forall i :: 0 <= i < |b| ==> IsDigit(b[i])
    ensures ValueOf(a + b) >= ValueOf(a)
    ensures b != [] && ValueOf(a) > 0 ==> ValueOf(a + b) > ValueOf(a)
    decreases |b|
  {
    if b == [] {
      assert a + b == a;
    } else {
      MoreDigitsLarger(a, b[..|b| - 1]);
      assert (a + b)[..|a + b| - 1] == a + b[..|b| - 1];
    }
  }

  lemma {:induction false} RunOfConcat(a: string, b: string)
    requires forall i :: 0 <= i < |a| ==> IsDigit(a[i])
    ensures DigitRun(a + b) == |a| + DigitRun(b)
  {
    if a == [] {
      assert a + b == b;
    } else {
      RunOfConcat(a[1..], b);
      assert (a + b)[1..] == a[1..] + b;
    }
  }

  /** What Postgres reads at a rewritten placeholder: parameter n + 1 if no digit follows, and some
      later number if one does. */
  lemma ReadsPlaceholder(n: nat, rest: string)
    ensures var text := "$" + Decimal(n + 1) + rest;
            var k := DigitRun(text[1..]);
            && k == |Decimal(n + 1)| + DigitRun(rest)
            && (DigitRun(rest) == 0 ==> ValueOf(text[1..][..k]) == n + 1 && text[1 + k..] == rest)
            && (DigitRun(rest) > 0 ==> ValueOf(text[1..][..k]) > n + 1)
  {
    var digits := Decimal(n + 1);
    var text := "$" + digits + rest;
    assert text[1..] == digits + rest;
    RunOfConcat(digits, rest);
    DecimalValue(n + 1);
    var k := DigitRun(text[1..]);
    var more := rest[..DigitRun(rest)];
    assert text[1..][..k] == digits + more;
    MoreDigitsLarger(digits, more);
    if more == [] {
      assert digits + more == digits;
    }
  }

  lemma RewriteHead(sql: string, n: nat)
    ensures sql == [] ==> DigitRun(Rewrite(sql, n)) == 0
    ensures sql != [] ==> (DigitRun(Rewrite(sql, n)) > 0 <==> IsDigit(sql[0]))
  {
  }

  lemma CleanTail(sql: string)
    requires sql != []
    ensures IsClean(sql) <==>
              IsClean(sql[1..]) && ((sql[0] == '?' || sql[0] == '$') && |sql| > 1 ==> !IsDigit(sql[1]))
  {
  }

  /** Clean statements: every parameter list, of any length, binds the same in both texts. */
  lemma {:induction false} CleanBindsTheSame(sql: string, n: nat, params: seq<int>)
    requires IsClean(sql)
    ensures BindNumbers(Rewrite(sql, n), params) == BindMarks(sql, params, n)
  {
    if sql != [] {
      CleanTail(sql);
      var n' := if sql[0] == '?' then n + 1 else n;
      var rest := Rewrite(sql[1..], n');
      RewriteHead(sql[1..], n');
      CleanBindsTheSame(sql[1..], n', params);
      if sql[0] == '?' {
        ReadsPlaceholder(n, rest);
      } else {
        assert Rewrite(sql, n)[1..] == rest;
      }
    }
  }

  function Marks(sql: string): nat {
    if sql == [] then 0 else (if sql[0] == '?' then 1 else 0) + Marks(sql[1..])
  }

  lemma {:induction false} MarksBind(sql: string, n: nat, params: seq<int>)
    requires |params| >= n + Marks(sql)
    ensures BindMarks(sql, params, n).Some?
  {
    if sql != [] {
      MarksBind(sql[1..], if sql[0] == '?' then n + 1 else n, params);
    }
  }

  lemma PrependTellsApart(t: Token, a: Option<seq<Token>>, u: Token, b: Option<seq<Token>>)
    requires Prepend(t, a) == Prepend(u, b) && Prepend(t, a).Some?
    ensures t == u && a == b
  {
    var s := Prepend(t, a).value;
    assert s[0] == t && s[1..] == a.value;
    assert s[0] == u && s[1..] == b.value;
  }

  /** A digit right after the first character changes what Postgres reads there. */
  lemma ReadsAnother(sql: string, n: nat, params: seq<int>)
    requires |sql| > 1 && (sql[0] == '?' || sql[0] == '$') && IsDigit(sql[1])
    requires |params| >= n + Marks(sql)
    requires forall i, j :: 0 <= i < j < |params| ==> params[i] != params[j]
    ensures BindNumbers(Rewrite(sql, n), params) != BindMarks(sql, params, n)
  {
    var n' := if sql[0] == '?' then n + 1 else n;
    var rest := Rewrite(sql[1..], n');
    RewriteHead(sql[1..], n');
    MarksBind(sql, n, params);
    var a, b := BindNumbers(Rewrite(sql, n), params), BindMarks(sql, params, n);
    if sql[0] == '?' {
      ReadsPlaceholder(n, rest);
      assert b.value[0] == Param(params[n]);
      assert a.Some? ==> a.value[0] != Param(params[n]);
    } else {
      assert Rewrite(sql, n)[1..] == rest;
      assert b.value[0] == Text('$');
      assert a.Some? ==> a.value[0] != Text('$');
    }
  }

  /** Other statements: enough distinct parameters tell the two texts apart. */
  lemma {:induction false} UncleanBindsDifferently(sql: string, n: nat, params: seq<int>)
    requires !IsClean(sql)
    requires |params| >= n + Marks(sql)
    requires forall i, j :: 0 <= i < j < |params| ==> params[i] != params[j]
    ensures BindNumbers(Rewrite(sql, n), params) != BindMarks(sql, params, n)
  {
    CleanTail(sql);
    if |sql| > 1 && (sql[0] == '?' || sql[0] == '$') && IsDigit(sql[1]) {
      ReadsAnother(sql, n, params);
    } else {
      var n' := if sql[0] == '?' then n + 1 else n;
      var rest := Rewrite(sql[1..], n');
      RewriteHead(sql[1..], n');
      MarksBind(sql, n, params);
      UncleanBindsDifferently(sql[1..], n', params);
      var t := if sql[0] == '?' then Param(params[n]) else Text(sql[0]);
      if sql[0] == '?' {
        ReadsPlaceholder(n, rest);
      } else {
        assert Rewrite(sql, n)[1..] == rest;
      }
      assert BindNumbers(Rewrite(sql, n), params) == Prepend(t, BindNumbers(rest, params));
      if BindNumbers(Rewrite(sql, n), params) == BindMarks(sql, params, n) {
        PrependTellsApart(t, BindNumbers(rest, params), t, BindMarks(sql[1..], params, n'));
      }
    }
  }

  /** The rewriting preserves what every parameter binds to exactly when no digit stands right after
      a `?` or a `$` of the statement. */
  lemma RewritePreservesBinding(sql: string)
    ensures SameBinding(sql) <==> IsClean(sql)
  {
    if IsClean(sql) {
      forall params: seq<int>
        ensures BindNumbers(Rewrite(sql, 0), params) == BindMarks(sql, params, 0)
      {
        CleanBindsTheSame(sql, 0, params);
      }
    } else {
      UncleanBindsDifferently(sql, 0, seq(Marks(sql), i => i));
    }
  }

  lemma ReadsEleven()
    ensures BindNumbers("$11", [7, 8]).None?
  {
    var s := "$11";
    assert s[1..] == "11" && "11"[1..] == "1" && "1"[1..] == "";
    assert DigitRun("") == 0 && DigitRun("1") == 1 && DigitRun("11") == 2;
    assert "11"[..2] == "11" && "11"[..1] == "1" && "1"[..0] == "";
    assert ValueOf("") == 0 && ValueOf("1") == 1 && ValueOf("11") == 11;
  }

  /** `?1` becomes `$11`: with two parameters the first text binds the first, the second text none. */
  lemma DigitAfterMark()
    ensures Rewrite("?1", 0) == "$11" && !SameBinding("?1")
    ensures BindMarks("?1", [7, 8], 0).Some? && BindNumbers("$11", [7, 8]).None?
  {
    assert !IsClean("?1") by {
      assert "?1"[0] == '?' && IsDigit("?1"[1]);
    }
    RewritePreservesBinding("?1");
    assert Decimal(1) == "1";
    assert "?1"[1..] == "1" && "1"[1..] == "";
    ReadsEleven();
  }
}
