/**
 * String operations the JavaScript source gets from its runtime (`trim`, `toLowerCase`,
 * `toUpperCase`, `includes`, `startsWith`, `endsWith`, `replace(/\s+/g, " ")`,
 * `replace(/\D/g, "")`), restricted to ASCII.
 */
module Text {

  /** Whitespace as `\s` and `trim` see it, restricted to ASCII. */
  predicate IsSpace(c: char) {
    c == ' ' || c == '\t' || c == '\n' || c == '\r' || c == '\U{000B}' || c == '\U{000C}'
  }

  /** `\d` */
  predicate IsDigit(c: char) {
    '0' <= c <= '9'
  }

  function Lower(c: char): char {
    if 'A' <= c <= 'Z' then (c as int + 32) as char else c
  }

  function Upper(c: char): char {
    if 'a' <= c <= 'z' then (c as int - 32) as char else c
  }

  /** `s.toLowerCase()` */
  function ToLower(s: string): string {
    seq(|s|, i requires 0 <= i < |s| => Lower(s[i]))
  }

  /** `s.toUpperCase()` */
  function ToUpper(s: string): string {
    seq(|s|, i requires 0 <= i < |s| => Upper(s[i]))
  }

  /** `s.endsWith(suffix)`, and SQL `LIKE '%suffix'` on a wildcard-free suffix. */
  predicate EndsWith(s: string, suffix: string) {
    |suffix| <= |s| && s[|s| - |suffix|..] == suffix
  }

  /** `s.includes(q)`: q occurs in s at some position. */
  predicate Contains(s: string, q: string) {
    q <= s || (s != [] && Contains(s[1..], q))
  }

  /** Drops leading whitespace. */
  function TrimStart(s: string): (r: string)
    ensures |r| <= |s| && r == s[|s| - |r|..]
    ensures r == [] || !IsSpace(r[0])
    ensures forall i :: 0 <= i < |s| - |r| ==> IsSpace(s[i])
  {
    if s != [] && IsSpace(s[0]) then TrimStart(s[1..]) else s
  }

  /** Drops trailing whitespace. */
  function TrimEnd(s: string): (r: string)
    ensures |r| <= |s| && r == s[..|r|]
    ensures r == [] || !IsSpace(r[|r| - 1])
    ensures forall i :: |r| <= i < |s| ==> IsSpace(s[i])
  {
    if s != [] && IsSpace(s[|s| - 1]) then TrimEnd(s[..|s| - 1]) else s
  }

  /** `s.trim()` */
  function Trim(s: string): string {
    TrimEnd(TrimStart(s))
  }

  /** `s.replace(/\s+/g, " ")`: every maximal run of whitespace becomes one space. */
  function Collapse(s: string): string
    decreases |s|
  {
    if s == [] then []
    else if IsSpace(s[0]) then [' '] + Collapse(TrimStart(s[1..]))
    else [s[0]] + Collapse(s[1..])
  }

  /** `s.replace(/\D/g, "")`: the digits of s, in order. */
  function DigitsOnly(s: string): (r: string)
    ensures |r| <= |s|
    ensures forall i :: 0 <= i < |r| ==> IsDigit(r[i])
    ensures (forall i :: 0 <= i < |s| ==> !IsDigit(s[i])) ==> r == []
  {
    if s == [] then []
    else if IsDigit(s[0]) then [s[0]] + DigitsOnly(s[1..])
    else DigitsOnly(s[1..])
  }

  /** Decimal rendering of a natural number, as a template literal `${n}` writes it. */
  function NatToString(n: nat): (r: string)
    ensures r != [] && forall i :: 0 <= i < |r| ==> IsDigit(r[i])
  {
    if n < 10 then [DigitChar(n)] else NatToString(n / 10) + [DigitChar(n % 10)]
  }

  function DigitChar(d: nat): (c: char)
    requires d < 10
    ensures IsDigit(c)
  {
    ('0' as int + d) as char
  }

  /** `parseInt` on a run of decimal digits (at full precision). */
  function DigitsValue(ds: string): nat
    decreases |ds|
  {
    if ds == [] then 0
    else DigitsValue(ds[..|ds| - 1]) * 10 + (if IsDigit(ds[|ds| - 1]) then ds[|ds| - 1] as int - '0' as int else 0)
  }

  /** Reading back a rendered number gives the number. */
  lemma {:induction false} ValueOfNatToString(n: nat)
    ensures DigitsValue(NatToString(n)) == n
  {
    if n >= 10 {
      ValueOfNatToString(n / 10);
      var s := NatToString(n);
      assert s[..|s| - 1] == NatToString(n / 10);
    }
  }

  /** Distinct numbers render differently. */
  lemma NatToStringInjective(a: nat, b: nat)
    ensures NatToString(a) == NatToString(b) ==> a == b
  {
    ValueOfNatToString(a);
    ValueOfNatToString(b);
  }

  /** No whitespace at either end. */
  predicate Trimmed(s: string) {
    s == [] || (!IsSpace(s[0]) && !IsSpace(s[|s| - 1]))
  }

  /** Every whitespace character is a plain space, and no two whitespace characters are adjacent. */
  predicate SingleSpaced(s: string) {
    forall i :: 0 <= i < |s| && IsSpace(s[i]) ==> s[i] == ' ' && (i + 1 < |s| ==> !IsSpace(s[i + 1]))
  }

  // ---------------------------------------------------------------------------------------------
  // Lemmas about Trim and Collapse

  lemma {:induction false} CollapseHead(s: string)
    requires s != []
    ensures Collapse(s) != [] && (IsSpace(Collapse(s)[0]) <==> IsSpace(s[0]))
  {
  }

  lemma {:induction false} CollapseLast(s: string)
    requires s != [] && !IsSpace(s[|s| - 1])
    ensures Collapse(s) != [] && !IsSpace(Collapse(s)[|Collapse(s)| - 1])
    decreases |s|
  {
    if IsSpace(s[0]) {
      var t := TrimStart(s[1..]);
      TrimStartKeepsLast(s[1..]);
      CollapseLast(t);
      LastOfCons(' ', Collapse(t));
    } else if |s| > 1 {
      assert s[1..][|s| - 2] == s[|s| - 1];
      CollapseLast(s[1..]);
      LastOfCons(s[0], Collapse(s[1..]));
    } else {
      assert Collapse(s) == [s[0]];
    }
  }

  /** Trimming the start of a string that ends in a non-space keeps that last character. */
  lemma TrimStartKeepsLast(s: string)
    requires s != [] && !IsSpace(s[|s| - 1])
    ensures var t := TrimStart(s); t != [] && t[|t| - 1] == s[|s| - 1]
  {
  }

  lemma LastOfCons(c: char, u: string)
    requires u != []
    ensures ([c] + u)[|u|] == u[|u| - 1]
  {
  }

  lemma {:induction false} CollapseSingleSpaced(s: string)
    ensures SingleSpaced(Collapse(s))
    decreases |s|
  {
    if s == [] {
    } else if IsSpace(s[0]) {
      var t := TrimStart(s[1..]);
      CollapseSingleSpaced(t);
      if t != [] { CollapseHead(t); }
      var r := Collapse(s);
      assert r == [' '] + Collapse(t);
      forall i | 0 <= i < |r| && IsSpace(r[i])
        ensures r[i] == ' ' && (i + 1 < |r| ==> !IsSpace(r[i + 1]))
      {
        if i > 0 { assert r[i] == Collapse(t)[i - 1]; }
      }
    } else {
      CollapseSingleSpaced(s[1..]);
      var r := Collapse(s);
      assert r == [s[0]] + Collapse(s[1..]);
      forall i | 0 <= i < |r| && IsSpace(r[i])
        ensures r[i] == ' ' && (i + 1 < |r| ==> !IsSpace(r[i + 1]))
      {
        assert i > 0;
        assert r[i] == Collapse(s[1..])[i - 1];
      }
    }
  }

  /** Collapse leaves a single-spaced string as it is. */
  lemma {:induction false} CollapseOfSingleSpaced(s: string)
    requires SingleSpaced(s)
    ensures Collapse(s) == s
    decreases |s|
  {
    if s != [] {
      SingleSpacedTail(s);
      CollapseOfSingleSpaced(s[1..]);
      if IsSpace(s[0]) {
        assert s[0] == ' ';
        assert s[1..] == [] || !IsSpace(s[1..][0]);
        assert TrimStart(s[1..]) == s[1..];
      }
      assert s == [s[0]] + s[1..];
    }
  }

  lemma SingleSpacedTail(s: string)
    requires SingleSpaced(s) && s != []
    ensures SingleSpaced(s[1..])
  {
    forall i | 0 <= i < |s[1..]| && IsSpace(s[1..][i])
      ensures s[1..][i] == ' ' && (i + 1 < |s[1..]| ==> !IsSpace(s[1..][i + 1]))
    {
      assert s[1..][i] == s[i + 1];
    }
  }

  /** Only an all-whitespace text trims to nothing from the left. */
  lemma TrimStartOfSpaces(s: string)
    ensures TrimStart(s) == [] <==> forall i :: 0 <= i < |s| ==> IsSpace(s[i])
  {
    var r := TrimStart(s);
    if r != [] {
      assert r[0] == s[|s| - |r|];
    }
  }

  lemma TrimOfTrimmed(s: string)
    requires Trimmed(s)
    ensures Trim(s) == s
  {
  }

  lemma TrimIsTrimmed(s: string)
    ensures Trimmed(Trim(s))
  {
    var t := TrimStart(s);
    var r := TrimEnd(t);
    if r != [] {
      assert r[0] == t[0];
    }
  }

  /** Collapsing the runs of a trimmed string keeps it trimmed. */
  lemma CollapseKeepsTrimmed(s: string)
    requires Trimmed(s)
    ensures Trimmed(Collapse(s))
  {
    if s != [] {
      CollapseHead(s);
      CollapseLast(s);
    }
  }

  // ---------------------------------------------------------------------------------------------
  // What Trim and Collapse keep

  /** The non-whitespace characters of s, in order. */
  function NonSpace(s: string): string {
    if s == [] then []
    else (if IsSpace(s[0]) then [] else [s[0]]) + NonSpace(s[1..])
  }

  lemma {:induction false} NonSpaceAppend(a: string, b: string)
    ensures NonSpace(a + b) == NonSpace(a) + NonSpace(b)
  {
    if a == [] {
      assert a + b == b;
    } else {
      var head := if IsSpace(a[0]) then [] else [a[0]];
      TailOfAppend(a, b);
      NonSpaceAppend(a[1..], b);
      assert NonSpace(a + b) == head + NonSpace(a[1..] + b);
      assert NonSpace(a) == head + NonSpace(a[1..]);
      AppendAssoc(head, NonSpace(a[1..]), NonSpace(b));
    }
  }

  lemma {:induction false} NonSpaceOfSpaces(s: string)
    requires forall i :: 0 <= i < |s| ==> IsSpace(s[i])
    ensures NonSpace(s) == []
  {
    if s != [] {
      assert forall i :: 0 <= i < |s[1..]| ==> s[1..][i] == s[i + 1];
      NonSpaceOfSpaces(s[1..]);
    }
  }

  /** Trimming the start drops whitespace only. */
  lemma TrimStartKeepsNonSpace(s: string)
    ensures NonSpace(TrimStart(s)) == NonSpace(s)
  {
    var r := TrimStart(s);
    var k := |s| - |r|;
    assert s == s[..k] + r;
    NonSpaceAppend(s[..k], r);
    NonSpaceOfSpaces(s[..k]);
  }

  /** Trimming the end drops whitespace only. */
  lemma TrimEndKeepsNonSpace(s: string)
    ensures NonSpace(TrimEnd(s)) == NonSpace(s)
  {
    var r := TrimEnd(s);
    assert s == r + s[|r|..];
    NonSpaceAppend(r, s[|r|..]);
    NonSpaceOfSpaces(s[|r|..]);
  }

  /** `trim` keeps every non-whitespace character, in order. */
  lemma TrimKeepsNonSpace(s: string)
    ensures NonSpace(Trim(s)) == NonSpace(s)
  {
    TrimStartKeepsNonSpace(s);
    TrimEndKeepsNonSpace(TrimStart(s));
  }

  /** Collapsing the runs keeps every non-whitespace character, in order. */
  lemma {:induction false} CollapseKeepsNonSpace(s: string)
    ensures NonSpace(Collapse(s)) == NonSpace(s)
    decreases |s|
  {
    if s != [] {
      assert s == [s[0]] + s[1..];
      NonSpaceAppend([s[0]], s[1..]);
      if IsSpace(s[0]) {
        var t := TrimStart(s[1..]);
        CollapseKeepsNonSpace(t);
        TrimStartKeepsNonSpace(s[1..]);
        NonSpaceAppend([' '], Collapse(t));
      } else {
        CollapseKeepsNonSpace(s[1..]);
        NonSpaceAppend([s[0]], Collapse(s[1..]));
      }
    }
  }

  /** Trimming the start of x + y, where x ends in a non-space, only touches x. */
  lemma {:induction false} TrimStartAppend(x: string, y: string)
    requires x != [] && !IsSpace(x[|x| - 1])
    ensures TrimStart(x + y) == TrimStart(x) + y
  {
    assert (x + y)[0] == x[0] && (x + y)[1..] == x[1..] + y;
    if IsSpace(x[0]) {
      assert x[1..][|x| - 2] == x[|x| - 1];
      TrimStartAppend(x[1..], y);
    }
  }

  /** Trimming the start of whitespace followed by a non-space start leaves the rest. */
  lemma {:induction false} TrimStartOfRun(w: string, b: string)
    requires forall i :: 0 <= i < |w| ==> IsSpace(w[i])
    requires b == [] || !IsSpace(b[0])
    ensures TrimStart(w + b) == b
  {
    if w == [] {
      assert w + b == b;
    } else {
      assert (w + b)[0] == w[0] && (w + b)[1..] == w[1..] + b;
      assert forall i :: 0 <= i < |w[1..]| ==> w[1..][i] == w[i + 1];
      TrimStartOfRun(w[1..], b);
    }
  }

  /** Collapse works piecewise across a point just after a non-space character. */
  lemma {:induction false} CollapseAppendAfterWord(x: string, y: string)
    requires x != [] && !IsSpace(x[|x| - 1])
    ensures Collapse(x + y) == Collapse(x) + Collapse(y)
    decreases |x|
  {
    var u := x[1..];
    if IsSpace(x[0]) {
      assert u[|x| - 2] == x[|x| - 1];
      TrimStartKeepsLast(u);
      CollapseAppendAfterWord(TrimStart(u), y);
      CollapseAppendSpaceStep(x, y);
    } else if u == [] {
      assert u + y == y && Collapse(u) == [];
      CollapseAppendCharStep(x, y);
    } else {
      assert u[|x| - 2] == x[|x| - 1];
      CollapseAppendAfterWord(u, y);
      CollapseAppendCharStep(x, y);
    }
  }

  /** The step of CollapseAppendAfterWord at a leading whitespace character. */
  lemma CollapseAppendSpaceStep(x: string, y: string)
    requires |x| > 1 && IsSpace(x[0]) && !IsSpace(x[|x| - 1])
    requires Collapse(TrimStart(x[1..]) + y) == Collapse(TrimStart(x[1..])) + Collapse(y)
    ensures Collapse(x + y) == Collapse(x) + Collapse(y)
  {
    var u := x[1..];
    var z := x + y;
    TailOfAppend(x, y);
    assert u[|u| - 1] == x[|x| - 1];
    TrimStartAppend(u, y);
    CollapseAtSpace(z);
    CollapseAtSpace(x);
    AppendAssoc([' '], Collapse(TrimStart(u)), Collapse(y));
  }

  lemma CollapseAtSpace(s: string)
    requires s != [] && IsSpace(s[0])
    ensures Collapse(s) == [' '] + Collapse(TrimStart(s[1..]))
  {
  }

  /** The step of CollapseAppendAfterWord at a leading non-whitespace character. */
  lemma CollapseAppendCharStep(x: string, y: string)
    requires x != [] && !IsSpace(x[0])
    requires Collapse(x[1..] + y) == Collapse(x[1..]) + Collapse(y)
    ensures Collapse(x + y) == Collapse(x) + Collapse(y)
  {
    assert (x + y)[0] == x[0] && (x + y)[1..] == x[1..] + y;
    AppendAssoc([x[0]], Collapse(x[1..]), Collapse(y));
  }

  lemma TailOfAppend<T>(x: seq<T>, y: seq<T>)
    requires x != []
    ensures (x + y)[0] == x[0] && (x + y)[1..] == x[1..] + y
  {
  }

  lemma AppendAssoc<T>(a: seq<T>, b: seq<T>, c: seq<T>)
    ensures a + (b + c) == (a + b) + c
  {
  }

  /** A run of whitespace before a non-space start becomes exactly one space. */
  lemma CollapseRun(w: string, b: string)
    requires w != [] && forall i :: 0 <= i < |w| ==> IsSpace(w[i])
    requires b == [] || !IsSpace(b[0])
    ensures Collapse(w + b) == [' '] + Collapse(b)
  {
    assert (w + b)[0] == w[0] && (w + b)[1..] == w[1..] + b;
    assert forall i :: 0 <= i < |w[1..]| ==> w[1..][i] == w[i + 1];
    TrimStartOfRun(w[1..], b);
  }

  /** Two words separated by any whitespace run stay separated by exactly one space. */
  lemma CollapseWordBreak(a: string, w: string, b: string)
    requires a != [] && !IsSpace(a[|a| - 1])
    requires w != [] && forall i :: 0 <= i < |w| ==> IsSpace(w[i])
    requires b == [] || !IsSpace(b[0])
    ensures Collapse(a + w + b) == Collapse(a) + [' '] + Collapse(b)
  {
    assert a + w + b == a + (w + b);
    CollapseAppendAfterWord(a, w + b);
    CollapseRun(w, b);
  }

  // ---------------------------------------------------------------------------------------------
  // Lemmas about ToLower

  lemma LowerKeepsSpace(c: char)
    ensures IsSpace(Lower(c)) <==> IsSpace(c)
    ensures Lower(c) == ' ' <==> c == ' '
  {
  }

  lemma ToLowerIdempotent(s: string)
    ensures ToLower(ToLower(s)) == ToLower(s)
  {
  }

  lemma ToLowerSlice(s: string, a: nat, b: nat)
    requires a <= b <= |s|
    ensures ToLower(s[a..b]) == ToLower(s)[a..b]
  {
  }

  lemma ToLowerConcat(s: string, t: string)
    ensures ToLower(s + t) == ToLower(s) + ToLower(t)
  {
  }

  lemma {:induction false} ToLowerTrimStart(s: string)
    ensures ToLower(TrimStart(s)) == TrimStart(ToLower(s))
    decreases |s|
  {
    if s != [] {
      if IsSpace(s[0]) {
        ToLowerTrimStart(s[1..]);
      }
      ToLowerTrimStartStep(s);
    }
  }

  /** The step of ToLowerTrimStart at the first character. */
  lemma ToLowerTrimStartStep(s: string)
    requires s != []
    requires IsSpace(s[0]) ==> ToLower(TrimStart(s[1..])) == TrimStart(ToLower(s[1..]))
    ensures ToLower(TrimStart(s)) == TrimStart(ToLower(s))
  {
    var l := ToLower(s);
    LowerKeepsSpace(s[0]);
    assert l[0] == Lower(s[0]);
    if IsSpace(s[0]) {
      ToLowerTail(s);
      assert TrimStart(s) == TrimStart(s[1..]);
      assert TrimStart(l) == TrimStart(l[1..]);
    }
  }

  lemma ToLowerTail(s: string)
    requires s != []
    ensures ToLower(s)[1..] == ToLower(s[1..])
  {
  }

  lemma {:induction false} ToLowerTrimEnd(s: string)
    ensures ToLower(TrimEnd(s)) == TrimEnd(ToLower(s))
    decreases |s|
  {
    if s != [] && IsSpace(s[|s| - 1]) {
      LowerKeepsSpace(s[|s| - 1]);
      ToLowerSlice(s, 0, |s| - 1);
      ToLowerTrimEnd(s[..|s| - 1]);
    } else if s != [] {
      LowerKeepsSpace(s[|s| - 1]);
    }
  }

  lemma ToLowerTrim(s: string)
    ensures ToLower(Trim(s)) == Trim(ToLower(s))
  {
    ToLowerTrimStart(s);
    ToLowerTrimEnd(TrimStart(s));
  }

  lemma {:induction false} ToLowerCollapse(s: string)
    ensures ToLower(Collapse(s)) == Collapse(ToLower(s))
    decreases |s|
  {
    if s != [] {
      if IsSpace(s[0]) {
        ToLowerCollapse(TrimStart(s[1..]));
        ToLowerCollapseSpace(s);
      } else {
        ToLowerCollapse(s[1..]);
        ToLowerCollapseOther(s);
      }
    }
  }

  /** The step of ToLowerCollapse at a leading whitespace character. */
  lemma ToLowerCollapseSpace(s: string)
    requires s != [] && IsSpace(s[0])
    requires ToLower(Collapse(TrimStart(s[1..]))) == Collapse(ToLower(TrimStart(s[1..])))
    ensures ToLower(Collapse(s)) == Collapse(ToLower(s))
  {
    var l := ToLower(s);
    var t := TrimStart(s[1..]);
    LowerKeepsSpace(s[0]);
    assert IsSpace(l[0]);
    ToLowerTail(s);
    ToLowerTrimStart(s[1..]);
    assert TrimStart(l[1..]) == ToLower(t);
    assert Collapse(l) == [' '] + Collapse(ToLower(t));
    assert Collapse(s) == [' '] + Collapse(t);
    ToLowerSpaceCons(Collapse(t));
  }

  lemma ToLowerSpaceCons(u: string)
    ensures ToLower([' '] + u) == [' '] + ToLower(u)
  {
    ToLowerConcat([' '], u);
    assert ToLower([' ']) == [' '];
  }

  /** The step of ToLowerCollapse at a leading non-whitespace character. */
  lemma ToLowerCollapseOther(s: string)
    requires s != [] && !IsSpace(s[0])
    requires ToLower(Collapse(s[1..])) == Collapse(ToLower(s[1..]))
    ensures ToLower(Collapse(s)) == Collapse(ToLower(s))
  {
    var l := ToLower(s);
    LowerKeepsSpace(s[0]);
    assert l[0] == Lower(s[0]) && !IsSpace(l[0]);
    ToLowerTail(s);
    assert Collapse(l) == [l[0]] + Collapse(l[1..]);
    assert Collapse(s) == [s[0]] + Collapse(s[1..]);
    ToLowerCharCons(s[0], Collapse(s[1..]));
  }

  lemma ToLowerCharCons(c: char, u: string)
    ensures ToLower([c] + u) == [Lower(c)] + ToLower(u)
  {
    ToLowerConcat([c], u);
    assert ToLower([c]) == [Lower(c)];
  }


}
