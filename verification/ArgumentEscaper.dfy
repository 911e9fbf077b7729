/** The .NET client hands its process arguments over as one escaped string. This module relates the
    escaping to the parsing the .NET runtime applies to such a string, and finds exactly which argument
    lists survive the trip. */
module ArgumentEscaper {
  import opened Wrappers

  const QUOTE := '\"'
  const SLASH := '\\'

  function Replaced(s: string): string {
    if s == "" then ""
    else (if s[0] == QUOTE then [SLASH, QUOTE] else [s[0]]) + Replaced(s[1..])
  }

  predicate NeedsQuotes(arg: string) {
    ' ' in arg || QUOTE in arg
  }

  function Escape(arg: string): string {
    if arg == "" then [QUOTE, QUOTE]
    else if !NeedsQuotes(arg) then arg
    else [QUOTE] + Replaced(arg) + [QUOTE]
  }

  /** The escaped arguments joined by single spaces. */
  function CommandLine(args: seq<string>): string {
    if args == [] then ""
    else if |args| == 1 then Escape(args[0])
    else Escape(args[0]) + " " + CommandLine(args[1..])
  }

  // ---------- the runtime's argument parsing ----------

  predicate Blank(c: char) {
    c == ' ' || c == '\t'
  }

  /** Length of the leading run of backslashes. */
  function Run(s: string): (n: nat)
    ensures n <= |s|
    ensures forall i :: 0 <= i < n ==> s[i] == SLASH
    ensures n < |s| ==> s[n] != SLASH
  {
    if s != "" && s[0] == SLASH then 1 + Run(s[1..]) else 0
  }

  function Slashes(n: nat): (s: string)
    ensures |s| == n && forall i :: 0 <= i < n ==> s[i] == SLASH
  {
    seq(n, _ => SLASH)
  }

  function Prepend(p: string, t: (string, string)): (string, string) {
    (p + t.0, t.1)
  }

  /** The next argument of `s` and what is left. Backslashes are literal unless a double quote follows:
      then each pair gives one, and an odd one makes the quote literal. A doubled quote inside quotes is a
      literal quote, any other quote opens or closes them, and an unquoted blank ends the argument. */
  function Token(s: string, quoted: bool): (t: (string, string))
    ensures |t.1| <= |s|
    ensures s != "" && (quoted || !Blank(s[0])) ==> |t.1| < |s|
    decreases |s|
  {
    if s == "" then ("", "")
    else if s[0] == SLASH then
      var n := Run(s);
      if n < |s| && s[n] == QUOTE then
        if n % 2 == 1 then Prepend(Slashes(n / 2) + [QUOTE], Token(s[n + 1..], quoted))
        else Prepend(Slashes(n / 2), Token(s[n..], quoted))
      else Prepend(Slashes(n), Token(s[n..], quoted))
    else if s[0] == QUOTE then
      if quoted && |s| > 1 && s[1] == QUOTE then Prepend([QUOTE], Token(s[2..], quoted))
      else Token(s[1..], !quoted)
    else if Blank(s[0]) && !quoted then ("", s)
    else Prepend([s[0]], Token(s[1..], quoted))
  }

  function Skip(s: string): (r: string)
    ensures |r| <= |s| && (r != "" ==> !Blank(r[0]))
  {
    if s != "" && Blank(s[0]) then Skip(s[1..]) else s
  }

  function Parse(s: string): seq<string>
    decreases |s|
  {
    var r := Skip(s);
    if r == "" then [] else
    var t := Token(r, false);
    [t.0] + Parse(t.1)
  }

  // ---------- which arguments survive ----------

  /** No backslash stands before a double quote or at the end. */
  predicate Clean(s: string) {
    forall i :: 0 <= i < |s| && s[i] == SLASH ==> i + 1 < |s| && s[i + 1] != QUOTE
  }

  /** Survives anywhere in a list. */
  predicate Safe(arg: string) {
    if ' ' in arg || '\"' in arg then Clean(arg) else '\t' !in arg
  }

  /** The one further kind that survives at the end of a list: clean but for a final backslash-quote. */
  predicate SafeLast(arg: string) {
    Safe(arg) || EndsOdd(arg)
  }

  predicate EndsOdd(arg: string) {
    |arg| >= 2 && arg[|arg| - 2] == SLASH && arg[|arg| - 1] == QUOTE && Clean(arg[..|arg| - 2])
  }

  predicate Survives(args: seq<string>) {
    forall i :: 0 <= i < |args| ==> if i < |args| - 1 then Safe(args[i]) else SafeLast(args[i])
  }

  /** What may follow an escaped argument on the command line. */
  predicate Tail(rest: string) {
    rest == "" || rest[0] == ' '
  }

  // ---------- clean arguments are read back ----------

  lemma RunOf(n: nat, s: string)
    requires s == "" || s[0] != SLASH
    ensures Run(Slashes(n) + s) == n
  {
    var w := Slashes(n) + s;
    assert forall i :: 0 <= i < n ==> w[i] == SLASH;
    assert n < |w| ==> w[n] == s[0];
  }

  lemma {:induction false} ReplacedConcat(s: string, t: string)
    ensures Replaced(s + t) == Replaced(s) + Replaced(t)
    decreases |s|
  {
    if s == "" {
      assert s + t == t;
    } else {
      assert (s + t)[0] == s[0] && (s + t)[1..] == s[1..] + t;
      ReplacedConcat(s[1..], t);
    }
  }

  lemma {:induction false} ReplacedSlashes(n: nat)
    ensures Replaced(Slashes(n)) == Slashes(n)
  {
    if n > 0 {
      assert Slashes(n)[1..] == Slashes(n - 1);
      ReplacedSlashes(n - 1);
    }
  }

  /** An argument body in terms of its leading backslashes. */
  lemma SplitRun(s: string) returns (n: nat, v: string)
    ensures n == Run(s) && v == s[n..] && s == Slashes(n) + v && (v == "" || v[0] != SLASH)
    ensures Replaced(s) == Slashes(n) + Replaced(v)
    ensures v != "" ==> Replaced(v) != "" && Replaced(v)[0] == (if v[0] == QUOTE then SLASH else v[0])
    ensures v != "" && v[0] == QUOTE ==> Replaced(s) == Slashes(n + 1) + [QUOTE] + Replaced(v[1..])
  {
    n := Run(s);
    v := s[n..];
    assert s == Slashes(n) + v;
    ReplacedConcat(Slashes(n), v);
    ReplacedSlashes(n);
    if v != "" && v[0] == QUOTE {
      assert Slashes(n) + [SLASH] == Slashes(n + 1);
    }
  }

  /** What is read for a body that starts with backslashes, up to the end of the line. */
  lemma RunText(s: string, rest: string) returns (n: nat, v: string)
    ensures n == Run(s) && v == s[n..] && s == Slashes(n) + v && (v == "" || v[0] != SLASH)
    ensures Replaced(s) + [QUOTE] + rest ==
      if v == "" then Slashes(n) + ([QUOTE] + rest)
      else if v[0] == QUOTE then Slashes(n + 1) + ([QUOTE] + (Replaced(v[1..]) + [QUOTE] + rest))
      else Slashes(n) + (Replaced(v) + [QUOTE] + rest)
    ensures v != "" && v[0] != QUOTE ==> Replaced(v) != "" && Replaced(v)[0] == v[0]
  {
    assert Replaced("") == "";
    hide Replaced, Run;
    n, v := SplitRun(s);
    if v == "" {
      assert Replaced(s) == Slashes(n);
      ConcatAssoc(Slashes(n), [QUOTE], rest);
    } else if v[0] == QUOTE {
      var r := Replaced(v[1..]);
      Regroup(Slashes(n + 1) + [QUOTE], r, [QUOTE], rest);
      ConcatAssoc(Slashes(n + 1), [QUOTE], r + [QUOTE] + rest);
    } else {
      Regroup(Slashes(n), Replaced(v), [QUOTE], rest);
    }
  }

  lemma Regroup(a: string, b: string, c: string, d: string)
    ensures a + b + c + d == a + (b + c + d)
  {
    ConcatAssoc(a, b, c);
    ConcatAssoc(a, b + c, d);
  }

  /** Reading a run of `n` backslashes that something other than a backslash follows. */
  lemma TokenRun(n: nat, s: string, quoted: bool)
    requires n > 0 && (s == "" || s[0] != SLASH)
    ensures Token(Slashes(n) + s, quoted) ==
      if s != "" && s[0] == QUOTE then
        if n % 2 == 1 then Prepend(Slashes(n / 2) + [QUOTE], Token(s[1..], quoted))
        else Prepend(Slashes(n / 2), Token(s, quoted))
      else Prepend(Slashes(n), Token(s, quoted))
  {
    RunOf(n, s);
    var w := Slashes(n) + s;
    assert w[n..] == s;
    if s != "" { assert w[n + 1..] == s[1..]; }
  }

  lemma TokenChar(c: char, s: string, quoted: bool)
    requires c != SLASH && c != QUOTE && (quoted || !Blank(c))
    ensures Token([c] + s, quoted) == Prepend([c], Token(s, quoted))
  {
    var w := [c] + s;
    assert w[0] == c && w[1..] == s;
  }

  lemma TokenLiteralQuote(s: string, quoted: bool)
    ensures Token([SLASH, QUOTE] + s, quoted) == Prepend([QUOTE], Token(s, quoted))
  {
    var w := [QUOTE] + s;
    assert w[1..] == s;
    assert [SLASH, QUOTE] + s == Slashes(1) + w;
    TokenRun(1, w, quoted);
    assert Slashes(1 / 2) + [QUOTE] == [QUOTE];
  }

  lemma TokenDoubled(s: string)
    ensures Token([QUOTE] + ([QUOTE] + s), true) == Prepend([QUOTE], Token(s, true))
  {
    var w := [QUOTE] + ([QUOTE] + s);
    assert w[1] == QUOTE && w[2..] == s;
  }

  lemma TokenToggles(s: string, quoted: bool)
    requires quoted ==> s == "" || s[0] != QUOTE
    ensures Token([QUOTE] + s, quoted) == Token(s, !quoted)
  {
    var w := [QUOTE] + s;
    assert w[1..] == s;
  }

  lemma TokenOfNothing(quoted: bool)
    ensures Token("", quoted) == ("", "")
  {
  }

  lemma TokenStops(rest: string)
    requires rest == "" || Blank(rest[0])
    ensures Token(rest, false) == ("", rest)
  {
  }

  lemma TokenEnd(rest: string)
    requires Tail(rest)
    ensures Token([QUOTE] + rest, true) == ("", rest)
  {
    var w := [QUOTE] + rest;
    assert w[1..] == rest;
  }

  lemma CleanSuffix(s: string, k: nat)
    requires Clean(s) && k <= |s|
    ensures Clean(s[k..])
  {
    assert forall i :: 0 <= i < |s[k..]| ==> s[k..][i] == s[k + i];
  }

  lemma PrependTwice(p: string, q: string, t: (string, string))
    ensures Prepend(p, Prepend(q, t)) == Prepend(p + q, t)
  {
    assert p + (q + t.0) == p + q + t.0;
  }

  /** Inside quotes a clean text is read as itself, whatever follows it. */
  lemma {:induction false} CleanPrefix(x: string, y: string)
    requires Clean(x)
    ensures Token(Replaced(x) + y, true) == Prepend(x, Token(y, true))
    decreases |x|
  {
    hide Token;
    if x == "" {
      assert Replaced(x) + y == y;
      assert "" + Token(y, true).0 == Token(y, true).0;
    } else if x[0] == SLASH {
      var n, v := SplitRun(x);
      CleanSuffix(x, n);
      CleanPrefix(v, y);
      var more := Replaced(v) + y;
      assert Replaced(x) + y == Slashes(n) + more;
      assert x[n - 1] == SLASH;
      assert more[0] == Replaced(v)[0];
      TokenRun(n, more, true);
      PrependTwice(Slashes(n), v, Token(y, true));
    } else {
      assert x == [x[0]] + x[1..];
      CleanSuffix(x, 1);
      CleanPrefix(x[1..], y);
      PrependTwice([x[0]], x[1..], Token(y, true));
      var more := Replaced(x[1..]) + y;
      if x[0] == QUOTE {
        assert Replaced(x) + y == [SLASH, QUOTE] + more;
        TokenLiteralQuote(more, true);
      } else {
        assert Replaced(x) + y == [x[0]] + more;
        TokenChar(x[0], more, true);
      }
    }
  }

  lemma CleanBody(x: string, rest: string)
    requires Clean(x) && Tail(rest)
    ensures Token(Replaced(x) + [QUOTE] + rest, true) == (x, rest)
  {
    hide Token;
    assert Replaced(x) + [QUOTE] + rest == Replaced(x) + ([QUOTE] + rest);
    CleanPrefix(x, [QUOTE] + rest);
    TokenEnd(rest);
    assert x + "" == x;
  }

  /** Outside quotes a body without quotes or blanks is read back up to the next blank. */
  lemma {:induction false} RawBody(x: string, rest: string)
    requires QUOTE !in x && (forall c :: c in x ==> !Blank(c))
    requires rest == "" || Blank(rest[0])
    ensures Token(x + rest, false) == (x, rest)
    decreases |x|
  {
    hide Token, Replaced;
    if x == "" {
      assert x + rest == rest;
      TokenStops(rest);
    } else if x[0] == SLASH {
      var n, v := SplitRun(x);
      RawBody(v, rest);
      ConcatAssoc(Slashes(n), v, rest);
      if v != "" {
        assert v[0] in x;
      }
      TokenRun(n, v + rest, false);
    } else {
      assert x == [x[0]] + x[1..];
      RawBody(x[1..], rest);
      assert x + rest == [x[0]] + (x[1..] + rest);
      assert x[0] in x;
      TokenChar(x[0], x[1..] + rest, false);
    }
  }

  lemma QuotedToken(arg: string, rest: string)
    requires arg == "" || NeedsQuotes(arg)
    ensures Escape(arg) == [QUOTE] + Replaced(arg) + [QUOTE]
    ensures Token(Escape(arg) + rest, false) == Token(Replaced(arg) + [QUOTE] + rest, true)
  {
    hide Token;
    var r := Replaced(arg);
    assert Escape(arg) == [QUOTE] + r + [QUOTE];
    hide Replaced, Escape;
    Regroup([QUOTE], r, [QUOTE], rest);
    TokenToggles(r + [QUOTE] + rest, false);
  }

  lemma SafeToken(arg: string, rest: string)
    requires Safe(arg) && Tail(rest)
    ensures Token(Escape(arg) + rest, false) == (arg, rest)
    ensures Escape(arg) != "" && !Blank(Escape(arg)[0])
  {
    if arg == "" || NeedsQuotes(arg) {
      CleanBody(arg, rest);
      QuotedToken(arg, rest);
    } else {
      RawBody(arg, rest);
      assert arg[0] in arg;
    }
  }

  // ---------- unclean arguments are not ----------

  /** Backslashes and quotes only. */
  predicate Marks(s: string) {
    forall i :: 0 <= i < |s| ==> s[i] == SLASH || s[i] == QUOTE
  }

  /** Once the reader has fallen behind by some marks `z` it never catches up: whatever it reads from the
      rest of the argument is not `z` followed by that rest. */
  lemma {:induction false} NeverCatchesUp(z: string, w: string, quoted: bool, rest: string)
    requires z != "" && Marks(z) && Tail(rest)
    ensures Token(Replaced(w) + [QUOTE] + rest, quoted).0 != z + w
    decreases |w|, 1
  {
    hide Token;
    var line := Replaced(w) + [QUOTE] + rest;
    if w == "" {
      assert line == [QUOTE] + rest;
      BehindAtEnd(z, quoted, rest);
    } else if w[0] == SLASH {
      BehindAtRun(z, w, quoted, rest);
    } else {
      var more := Replaced(w[1..]) + [QUOTE] + rest;
      if w[0] == QUOTE {
        assert line == [SLASH, QUOTE] + more;
        TokenLiteralQuote(more, quoted);
        var zz := z + [QUOTE];
        assert z + w == zz + w[1..];
        if Token(line, quoted).0 == z + w {
          StripPrefix([QUOTE], Token(more, quoted).0, zz, w[1..]);
          NeverCatchesUp(zz[1..], w[1..], quoted, rest);
        }
      } else {
        assert line == [w[0]] + more;
        if Blank(w[0]) && !quoted {
          TokenStops(line);
        } else {
          TokenChar(w[0], more, quoted);
          assert (z + w)[0] == z[0];
        }
      }
    }
  }

  /** What is read from the end of the argument on is nothing, or starts with a space. */
  lemma RestToken(rest: string, quoted: bool)
    requires Tail(rest)
    ensures var t := Token(rest, quoted).0; t == "" || t[0] == ' '
    ensures rest != "" ==> Token(rest, true).0 != ""
  {
    hide Token;
    TokenOfNothing(quoted);
    TokenStops(rest);
    if rest != "" {
      TokenChar(' ', rest[1..], true);
      assert [' '] + rest[1..] == rest;
    }
  }

  lemma EndToken(rest: string, quoted: bool)
    requires Tail(rest)
    ensures var t := Token([QUOTE] + rest, quoted).0; t == "" || t[0] == ' '
  {
    var line := [QUOTE] + rest;
    assert line[1..] == rest;
    RestToken(rest, !quoted);
    if quoted {
      TokenEnd(rest);
    }
  }

  lemma BehindAtEnd(z: string, quoted: bool, rest: string)
    requires z != "" && Marks(z) && Tail(rest)
    ensures Token([QUOTE] + rest, quoted).0 != z
  {
    EndToken(rest, quoted);
  }

  lemma MarksGap(p: string, t: string, u: string)
    requires Marks(u) && |p| < |u| && (t == "" || t[0] == ' ')
    ensures p + t != u
  {
    if t != "" {
      assert (p + t)[|p|] == ' ';
    }
  }

  lemma StripPrefix(p: string, t: string, zz: string, y: string)
    requires |p| <= |zz| && p + t == zz + y
    ensures t == zz[|p|..] + y
  {
    assert t == (p + t)[|p|..];
    assert (zz + y)[|p|..] == zz[|p|..] + y;
  }

  /** `NeverCatchesUp` where the rest of the argument starts with backslashes. */
  lemma {:induction false} BehindAtRun(z: string, w: string, quoted: bool, rest: string)
    requires z != "" && Marks(z) && Tail(rest)
    requires w != "" && w[0] == SLASH
    ensures Token(Replaced(w) + [QUOTE] + rest, quoted).0 != z + w
    decreases |w|, 0
  {
    hide Token;
    assert Run(w) > 0;
    hide Replaced, Run;
    var j, v := RunText(w, rest);
    var zs := z + Slashes(j);
    ConcatAssoc(z, Slashes(j), v);
    if v == "" {
      BehindAtTrailing(zs, j, quoted, rest);
      assert zs + v == zs;
    } else if v[0] == QUOTE {
      ConcatAssoc(zs, [QUOTE], v[1..]);
      assert v == [QUOTE] + v[1..];
      BehindAtQuote(z, j, v[1..], quoted, rest);
    } else {
      BehindAtOther(zs, j, v, quoted, rest);
    }
  }

  lemma {:induction false} BehindAtOther(zs: string, j: nat, v: string, quoted: bool, rest: string)
    requires 0 < j < |zs| && Marks(zs) && Tail(rest)
    requires v != "" && v[0] != SLASH && v[0] != QUOTE
    ensures Token(Slashes(j) + (Replaced(v) + [QUOTE] + rest), quoted).0 != zs + v
    decreases |v|, 2
  {
    hide Token;
    var more := Replaced(v) + [QUOTE] + rest;
    assert more[0] == v[0];
    TokenRun(j, more, quoted);
    if Token(Slashes(j) + more, quoted).0 == zs + v {
      StripPrefix(Slashes(j), Token(more, quoted).0, zs, v);
      NeverCatchesUp(zs[j..], v, quoted, rest);
    }
  }

  lemma BehindAtTrailing(u: string, j: nat, quoted: bool, rest: string)
    requires 0 < j < |u| && Marks(u) && Tail(rest)
    ensures Token(Slashes(j) + ([QUOTE] + rest), quoted).0 != u
  {
    hide Token;
    TokenRun(j, [QUOTE] + rest, quoted);
    assert ([QUOTE] + rest)[1..] == rest;
    RestToken(rest, quoted);
    EndToken(rest, quoted);
    if j % 2 == 1 {
      MarksGap(Slashes(j / 2) + [QUOTE], Token(rest, quoted).0, u);
    } else {
      MarksGap(Slashes(j / 2), Token([QUOTE] + rest, quoted).0, u);
    }
  }

  lemma {:induction false} BehindAtQuote(z: string, j: nat, v: string, quoted: bool, rest: string)
    requires z != "" && Marks(z) && Tail(rest) && j > 0
    ensures Token(Slashes(j + 1) + ([QUOTE] + (Replaced(v) + [QUOTE] + rest)), quoted).0 != z + Slashes(j) + [QUOTE] + v
    decreases |v|, 2
  {
    hide Token;
    assert Replaced("") == "";
    if v != "" {
      ReplacedStart(v);
    }
    hide Replaced, Run;
    var more := Replaced(v) + [QUOTE] + rest;
    var line := [QUOTE] + more;
    assert line[1..] == more;
    var zz := z + Slashes(j) + [QUOTE];
    TokenRun(j + 1, line, quoted);
    var t := Token(Slashes(j + 1) + line, quoted).0;
    if j % 2 == 0 {
      var p := Slashes((j + 1) / 2) + [QUOTE];
      if t == zz + v {
        StripPrefix(p, Token(more, quoted).0, zz, v);
        NeverCatchesUp(zz[|p|..], v, quoted, rest);
      }
    } else if quoted && v == "" {
      BehindAtLoneQuote(z, j, rest);
      assert more == [QUOTE] + rest && zz + v == zz;
    } else {
      var p := Slashes((j + 1) / 2);
      TokenToggles(more, quoted);
      if t == zz + v {
        StripPrefix(p, Token(more, !quoted).0, zz, v);
        NeverCatchesUp(zz[|p|..], v, !quoted, rest);
      }
    }
  }

  /** A replaced text never starts with a quote. */
  lemma ReplacedStart(s: string)
    requires s != ""
    ensures Replaced(s) != "" && Replaced(s)[0] != QUOTE
  {
  }

  lemma BehindAtLoneQuote(z: string, j: nat, rest: string)
    requires z != "" && Marks(z) && Tail(rest) && j % 2 == 1
    ensures Prepend(Slashes((j + 1) / 2), Token([QUOTE] + ([QUOTE] + rest), true)).0 != z + Slashes(j) + [QUOTE]
  {
    hide Token;
    var p := Slashes((j + 1) / 2);
    TokenDoubled(rest);
    RestToken(rest, true);
    ConcatAssoc(p, [QUOTE], Token(rest, true).0);
    MarksGap(p + [QUOTE], Token(rest, true).0, z + Slashes(j) + [QUOTE]);
  }

  // ---------- which argument the reader gets wrong ----------

  /** The text splits into a clean part and a run of backslashes that stands before a quote or the end. */
  lemma {:induction false} FirstTrouble(x: string) returns (p: string, n: nat, v: string)
    requires !Clean(x)
    ensures x == p + (Slashes(n) + v) && Clean(p) && n > 0
    ensures v == "" || v[0] == QUOTE
    decreases |x|
  {
    assert Clean("") && x != "";
    hide Replaced, Run, Clean;
    if x[0] == SLASH {
      var m, w := SplitRun(x);
      if w == "" || w[0] == QUOTE {
        p, n, v := "", m, w;
        assert "" + (Slashes(n) + v) == Slashes(n) + v;
      } else {
        CleanRun(m, w);
        var q: string;
        q, n, v := FirstTrouble(w);
        assert (Slashes(n) + v)[0] == SLASH;
        assert q != "" && q[0] == w[0];
        CleanRun(m, q);
        p := Slashes(m) + q;
        ConcatAssoc(Slashes(m), q, Slashes(n) + v);
      }
    } else {
      TroubleLater(x);
      var q: string;
      q, n, v := FirstTrouble(x[1..]);
      p := [x[0]] + q;
      CleanCons(x[0], q);
      ConcatAssoc([x[0]], q, Slashes(n) + v);
      assert x == [x[0]] + x[1..];
    }
  }

  lemma CleanCons(c: char, s: string)
    requires c != SLASH && Clean(s)
    ensures Clean([c] + s)
  {
    var x := [c] + s;
    forall i | 0 <= i < |x| && x[i] == SLASH ensures i + 1 < |x| && x[i + 1] != QUOTE {
      assert s[i - 1] == SLASH;
    }
  }

  lemma TroubleLater(x: string)
    requires x != "" && !Clean(x) && x[0] != SLASH
    ensures !Clean(x[1..])
  {
    var i :| 0 <= i < |x| && x[i] == SLASH && !(i + 1 < |x| && x[i + 1] != QUOTE);
    assert x[1..][i - 1] == SLASH;
  }

  /** Backslashes before a text that starts with neither a backslash nor a quote do no harm. */
  lemma CleanRun(n: nat, w: string)
    requires w != "" && w[0] != SLASH && w[0] != QUOTE
    ensures Clean(Slashes(n) + w) <==> Clean(w)
  {
    var x := Slashes(n) + w;
    assert forall i :: 0 <= i < |w| ==> x[n + i] == w[i];
    if Clean(x) {
      forall i | 0 <= i < |w| && w[i] == SLASH ensures i + 1 < |w| && w[i + 1] != QUOTE {
        assert x[n + i] == SLASH;
      }
    }
  }

  /** From the first trouble on, the reader gets the argument right only if it is one backslash-quote at
      the very end of the command line, where the closing quote is taken as the quote that is missing. */
  lemma TroubleToken(n: nat, v: string, rest: string)
    requires n > 0 && (v == "" || v[0] == QUOTE) && Tail(rest)
    ensures var t := Token(Replaced(Slashes(n) + v) + [QUOTE] + rest, true);
      && (t.0 == Slashes(n) + v <==> n == 1 && v == [QUOTE] && rest == "")
      && (n == 1 && v == [QUOTE] && rest == "" ==> t.1 == "")
  {
    hide Token;
    RunOf(n, v);
    hide Replaced, Run;
    var m, w := RunText(Slashes(n) + v, rest);
    assert m == n && w == v;
    if v == "" {
      TrailingTrouble(n, rest);
      assert Slashes(n) + v == Slashes(n);
    } else {
      assert v == [QUOTE] + v[1..];
      QuoteTrouble(n, v[1..], rest);
    }
  }

  lemma TrailingTrouble(n: nat, rest: string)
    requires n > 0 && Tail(rest)
    ensures Token(Slashes(n) + ([QUOTE] + rest), true).0 != Slashes(n)
  {
    hide Token;
    TokenRun(n, [QUOTE] + rest, true);
    assert ([QUOTE] + rest)[1..] == rest;
    TokenEnd(rest);
    if n % 2 == 1 {
      var t := Slashes(n / 2) + [QUOTE] + Token(rest, true).0;
      assert t[n / 2] == QUOTE;
    }
  }

  lemma QuoteTrouble(n: nat, w: string, rest: string)
    requires n > 0 && Tail(rest)
    ensures var t := Token(Slashes(n + 1) + ([QUOTE] + (Replaced(w) + [QUOTE] + rest)), true);
      && (t.0 == Slashes(n) + ([QUOTE] + w) <==> n == 1 && w == "" && rest == "")
      && (n == 1 && w == "" && rest == "" ==> t.1 == "")
  {
    hide Token;
    var more := Replaced(w) + [QUOTE] + rest;
    assert ([QUOTE] + more)[1..] == more;
    TokenRun(n + 1, [QUOTE] + more, true);
    if n % 2 == 0 {
      hide Replaced;
      var t := Token(Slashes(n + 1) + ([QUOTE] + more), true).0;
      var u := Slashes(n) + ([QUOTE] + w);
      assert t[(n + 1) / 2] == QUOTE && u[(n + 1) / 2] == SLASH;
    } else if w == "" {
      assert more == [QUOTE] + rest;
      LoneQuoteTrouble(n, rest);
    } else {
      FollowedQuoteTrouble(n, w, rest);
    }
  }

  lemma LoneQuoteTrouble(n: nat, rest: string)
    requires n % 2 == 1 && Tail(rest)
    ensures var t := Prepend(Slashes((n + 1) / 2), Token([QUOTE] + ([QUOTE] + rest), true));
      && (t.0 == Slashes(n) + ([QUOTE] + "") <==> n == 1 && rest == "")
      && (n == 1 && rest == "" ==> t.1 == "")
  {
    hide Token;
    TokenDoubled(rest);
    RestToken(rest, true);
    TokenOfNothing(true);
    var t := Slashes((n + 1) / 2) + [QUOTE] + Token(rest, true).0;
    ConcatAssoc(Slashes((n + 1) / 2), [QUOTE], Token(rest, true).0);
    if n > 1 {
      assert t[(n + 1) / 2] == QUOTE && (Slashes(n) + [QUOTE])[(n + 1) / 2] == SLASH;
    } else {
      assert |t| == 2 + |Token(rest, true).0|;
    }
  }

  lemma FollowedQuoteTrouble(n: nat, w: string, rest: string)
    requires n % 2 == 1 && w != "" && Tail(rest)
    ensures var more := Replaced(w) + [QUOTE] + rest;
      Prepend(Slashes((n + 1) / 2), Token([QUOTE] + more, true)).0 != Slashes(n) + ([QUOTE] + w)
  {
    hide Token;
    var more := Replaced(w) + [QUOTE] + rest;
    var j, x := SplitRun(w);
    assert more[0] == Replaced(w)[0] != QUOTE;
    hide Replaced, Run;
    TokenToggles(more, true);
    var p := Slashes((n + 1) / 2);
    var zz := Slashes(n) + [QUOTE];
    ConcatAssoc(Slashes(n), [QUOTE], w);
    if p + Token(more, false).0 == zz + w {
      StripPrefix(p, Token(more, false).0, zz, w);
      NeverCatchesUp(zz[|p|..], w, false, rest);
    }
  }

  /** A quoted argument is read back exactly if it is clean, or odd at its end and last on the line. */
  lemma BodyReadBack(x: string, rest: string)
    requires Tail(rest)
    ensures var t := Token(Replaced(x) + [QUOTE] + rest, true);
      && (t.0 == x <==> Clean(x) || (rest == "" && EndsOdd(x)))
      && (t.0 == x ==> t.1 == rest)
  {
    hide Token;
    if Clean(x) {
      CleanBody(x, rest);
    } else {
      var p, n, v := FirstTrouble(x);
      var u := Slashes(n) + v;
      ReplacedConcat(p, u);
      var more := Replaced(u) + [QUOTE] + rest;
      assert Replaced(x) + [QUOTE] + rest == Replaced(p) + more;
      CleanPrefix(p, more);
      TroubleToken(n, v, rest);
      OddEnd(p, n, v);
      var t := Token(more, true).0;
      assert (p + t)[|p|..] == t && (p + u)[|p|..] == u;
    }
  }

  lemma OddEnd(p: string, n: nat, v: string)
    requires Clean(p) && n > 0 && (v == "" || v[0] == QUOTE)
    ensures EndsOdd(p + (Slashes(n) + v)) <==> n == 1 && v == [QUOTE]
  {
    var x := p + (Slashes(n) + v);
    assert x[|p| + n - 1] == SLASH;
    if v == "" {
    } else {
      assert x[|p| + n] == QUOTE;
      if |v| == 1 {
        assert v == [QUOTE];
        if n == 1 {
          assert x[..|x| - 2] == p;
        } else {
          assert x[..|x| - 2][|p| + n - 2] == SLASH;
        }
      }
    }
  }

  // ---------- whole command lines ----------

  predicate AllTabs(s: string) {
    s != "" && forall c :: c in s ==> c == '\t'
  }

  lemma ParseToken(s: string)
    requires s != "" && !Blank(s[0])
    ensures var t := Token(s, false); Parse(s) == [t.0] + Parse(t.1)
  {
  }

  lemma ParseSkips(s: string)
    requires s != "" && Blank(s[0])
    ensures Parse(s) == Parse(s[1..])
  {
  }

  /** An unquoted argument is read up to its first tab, or skipped if it is nothing but tabs. */
  lemma {:induction false} FirstOfRaw(arg: string, rest: string)
    requires arg != "" && !NeedsQuotes(arg) && Tail(rest)
    ensures (Parse(arg + rest) == Parse(rest) && AllTabs(arg))
      || (Parse(arg + rest) != [] && Parse(arg + rest)[0] != "" && '\t' !in Parse(arg + rest)[0])
    decreases |arg|
  {
    hide Token;
    var line := arg + rest;
    assert arg[0] in arg;
    if arg[0] == '\t' {
      ParseSkips(line);
      assert line[1..] == arg[1..] + rest;
      if arg[1..] == "" {
        assert line[1..] == rest;
        assert forall c :: c in arg ==> c == arg[0];
      } else {
        assert forall c :: c in arg ==> c == arg[0] || c in arg[1..];
        FirstOfRaw(arg[1..], rest);
      }
    } else {
      var a, b := UpToTab(arg);
      assert line == a + (b + rest);
      RawBody(a, b + rest);
      ParseToken(line);
    }
  }

  lemma {:induction false} UpToTab(s: string) returns (a: string, b: string)
    ensures s == a + b && '\t' !in a && (b == "" || b[0] == '\t')
    ensures s != "" && s[0] != '\t' ==> a != ""
    ensures forall c :: c in a ==> c in s
  {
    if s == "" || s[0] == '\t' {
      a, b := "", s;
    } else {
      a, b := UpToTab(s[1..]);
      a := [s[0]] + a;
    }
  }

  lemma SlashesAreRead(x: string, rest: string)
    requires x != "" && x[0] == SLASH
    ensures var t := Token(Replaced(x) + [QUOTE] + rest, true).0;
      t != "" && (t[0] == SLASH || t[0] == QUOTE)
  {
    hide Token;
    assert Run(x) > 0;
    hide Replaced, Run;
    var n, v := RunText(x, rest);
    if v != "" && v[0] == QUOTE {
      TokenRun(n + 1, [QUOTE] + (Replaced(v[1..]) + [QUOTE] + rest), true);
    } else if v == "" {
      TokenRun(n, [QUOTE] + rest, true);
    } else {
      TokenRun(n, Replaced(v) + [QUOTE] + rest, true);
    }
  }

  /** A quoted argument with anything but tabs in it is not read as tabs. */
  lemma {:induction false} BodyNotTabs(x: string, rest: string)
    requires Tail(rest) && exists c :: c in x && c != '\t'
    ensures exists c :: c in Token(Replaced(x) + [QUOTE] + rest, true).0 && c != '\t'
    decreases |x|
  {
    hide Token;
    var line := Replaced(x) + [QUOTE] + rest;
    var t := Token(line, true).0;
    var more := Replaced(x[1..]) + [QUOTE] + rest;
    if x[0] == SLASH {
      SlashesAreRead(x, rest);
      assert t[0] in t;
    } else if x[0] == QUOTE {
      assert line == [SLASH, QUOTE] + more;
      TokenLiteralQuote(more, true);
      assert t[0] == QUOTE && t[0] in t;
    } else {
      assert line == [x[0]] + more;
      TokenChar(x[0], more, true);
      assert t == [x[0]] + Token(more, true).0;
      if x[0] == '\t' {
        var c :| c in x && c != '\t';
        assert x == [x[0]] + x[1..];
        assert c in x[1..];
        BodyNotTabs(x[1..], rest);
        var d :| d in Token(more, true).0 && d != '\t';
        assert d in t;
      } else {
        assert t[0] == x[0] && t[0] in t;
      }
    }
  }

  /** No first argument is read as tabs only. */
  lemma {:induction false} FirstIsNotTabs(args: seq<string>)
    ensures var ps := Parse(CommandLine(args)); ps != [] ==> !AllTabs(ps[0])
    decreases |args|
  {
    hide Token;
    if args != [] {
      var arg := args[0];
      var rest := RestOfLine(args);
      assert CommandLine(args) == Escape(arg) + rest;
      if arg == "" || NeedsQuotes(arg) {
        QuotedToken(arg, rest);
        ParseToken(Escape(arg) + rest);
        if arg == "" {
          CleanBody(arg, rest);
        } else {
          assert exists c :: c in arg && c != '\t' by {
            assert if ' ' in arg then ' ' != '\t' else QUOTE in arg && QUOTE != '\t';
          }
          BodyNotTabs(arg, rest);
        }
      } else {
        FirstOfRaw(arg, rest);
        FirstIsNotTabs(args[1..]);
        RestParses(args);
        var ps := Parse(CommandLine(args));
        if ps != [] && ps[0] != "" && '\t' !in ps[0] {
          assert ps[0][0] in ps[0];
        }
      }
    }
  }

  function RestOfLine(args: seq<string>): (rest: string)
    requires args != []
    ensures Tail(rest)
  {
    if |args| == 1 then "" else " " + CommandLine(args[1..])
  }

  lemma RestParses(args: seq<string>)
    requires args != []
    ensures Parse(RestOfLine(args)) == Parse(CommandLine(args[1..]))
  {
    hide Token;
    var rest := RestOfLine(args);
    if |args| > 1 {
      ParseSkips(rest);
      assert rest[1..] == CommandLine(args[1..]);
    } else {
      assert args[1..] == [];
    }
  }

  lemma SurvivesFirst(args: seq<string>)
    requires args != []
    ensures Survives(args) <==> (if |args| == 1 then SafeLast(args[0]) else Safe(args[0])) && Survives(args[1..])
  {
    assert forall i :: 0 <= i < |args[1..]| ==> args[1..][i] == args[i + 1];
    if Survives(args) {
      forall i | 0 <= i < |args[1..]|
        ensures if i < |args[1..]| - 1 then Safe(args[1..][i]) else SafeLast(args[1..][i])
      {
        assert args[1..][i] == args[i + 1];
      }
    }
  }

  /** Reading back the first argument of a line. */
  lemma FirstArgument(args: seq<string>)
    requires args != []
    ensures var rest := RestOfLine(args);
      if (if rest == "" then SafeLast(args[0]) else Safe(args[0]))
      then Parse(CommandLine(args)) == [args[0]] + Parse(rest)
      else Parse(CommandLine(args)) == [] || Parse(CommandLine(args))[0] != args[0]
  {
    hide Token;
    var arg := args[0];
    var rest := RestOfLine(args);
    var line := CommandLine(args);
    assert line == Escape(arg) + rest;
    if arg == "" || NeedsQuotes(arg) {
      QuotedToken(arg, rest);
      ParseToken(line);
      BodyReadBack(arg, rest);
    } else if Safe(arg) {
      SafeToken(arg, rest);
      ParseToken(line);
    } else {
      FirstOfRaw(arg, rest);
      RestParses(args);
      FirstIsNotTabs(args[1..]);
    }
  }

  /** An argument list comes back unchanged from the escaped command line if and only if every argument
      but the last is safe and the last is safe or odd at its end. */
  lemma {:induction false} RoundTripExactly(args: seq<string>)
    ensures Parse(CommandLine(args)) == args <==> Survives(args)
    decreases |args|
  {
    if args != [] {
      var tail := args[1..];
      assert args == [args[0]] + tail;
      FirstArgument(args);
      RestParses(args);
      SurvivesFirst(args);
      RoundTripExactly(tail);
      if Parse(CommandLine(args)) == [args[0]] + Parse(CommandLine(tail)) {
        assert Parse(CommandLine(args))[1..] == Parse(CommandLine(tail));
      }
    }
  }

  /** In particular every list without backslashes and tabs comes back, with its empty arguments, its
      spaces and its quotes. */
  lemma PlainListsRoundTrip(args: seq<string>)
    requires forall i :: 0 <= i < |args| ==> SLASH !in args[i] && '\t' !in args[i]
    ensures Parse(CommandLine(args)) == args
  {
    RoundTripExactly(args);
    forall i | 0 <= i < |args| ensures Safe(args[i]) {
      forall k | 0 <= k < |args[i]| ensures args[i][k] != SLASH {
        assert args[i][k] in args[i];
      }
    }
  }

  /** The line of a text with a space and a backslash at its end, as the reader sees it. */
  lemma TrailingSlashLine(x: string)
    requires ' ' in x
    ensures Escape(x + [SLASH]) == [QUOTE] + (Replaced(x) + [SLASH, QUOTE])
  {
    var arg := x + [SLASH];
    var i :| 0 <= i < |x| && x[i] == ' ';
    assert arg[i] == ' ';
    ReplacedConcat(x, [SLASH]);
    ReplacedSlashes(1);
    assert Slashes(1) == [SLASH];
    hide Replaced;
    ConcatAssoc([QUOTE], Replaced(x) + [SLASH], [QUOTE]);
    ConcatAssoc(Replaced(x), [SLASH], [QUOTE]);
    assert [SLASH] + [QUOTE] == [SLASH, QUOTE];
  }

  /** Every clean argument that has a space, such as a directory, when followed by one backslash: it comes back
      with a quote in place of that backslash. */
  lemma TrailingBackslashIsLost(x: string)
    requires Clean(x) && ' ' in x
    ensures Parse(CommandLine([x + [SLASH]])) == [x + [QUOTE]]
  {
    TrailingSlashLine(x);
    var line := Escape(x + [SLASH]);
    hide Escape, Replaced, Run;
    hide Token;
    assert CommandLine([x + [SLASH]]) == line;
    ParseToken(line);
    TokenToggles(Replaced(x) + [SLASH, QUOTE], false);
    CleanPrefix(x, [SLASH, QUOTE]);
    TokenLiteralQuote("", true);
    TokenOfNothing(true);
    assert [SLASH, QUOTE] + "" == [SLASH, QUOTE] && [QUOTE] + "" == [QUOTE];
    assert Parse("") == [];
  }

  /** For instance one quoted Windows directory. */
  lemma DirectoryIsLost()
    ensures Parse(CommandLine(["C:\\My Dir\\"])) == ["C:\\My Dir\""] != ["C:\\My Dir\\"]
  {
    var x := "C:\\My Dir";
    assert x[5] == ' ';
    assert x + [SLASH] == "C:\\My Dir\\" && x + [QUOTE] == "C:\\My Dir\"";
    TrailingBackslashIsLost(x);
    assert ["C:\\My Dir\""][0][9] != ["C:\\My Dir\\"][0][9];
  }
}
