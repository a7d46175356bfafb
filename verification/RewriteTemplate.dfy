/** Capture references in a regex rewrite template (`expandRegexRewrite`). */
module RewriteTemplate {
  import opened Foundations

  const DOLLAR: Byte := 36
  const ZERO: Byte := 48
  const NINE: Byte := 57

  /** `$$`, `$0`..`$9`, or one byte that stands for itself. */
  datatype Token = Escaped | Group(n: nat) | Plain(b: Byte)

  /** The bytes that a preceding '$' binds to. */
  predicate Binds(b: Byte) {
    b == DOLLAR || ZERO <= b <= NINE
  }

  // ---- The token grammar ----

  function Spell(t: Token): Bytes {
    match t
    case Escaped => [DOLLAR, DOLLAR]
    case Group(n) => [DOLLAR, if n <= 9 then ZERO + n as Byte else NINE]
    case Plain(b) => [b]
  }

  function SpellAll(ts: seq<Token>): Bytes {
    if ts == [] then [] else Spell(ts[0]) + SpellAll(ts[1..])
  }

  /** Single-digit groups, and no lone '$' in front of something it would bind to. */
  ghost predicate Proper(ts: seq<Token>) {
    && (forall i | 0 <= i < |ts| && ts[i].Group? :: ts[i].n <= 9)
    && (forall i, j | 0 <= i < j < |ts| && j == i + 1 && ts[i] == Plain(DOLLAR) :: !Binds(Spell(ts[j])[0]))
  }

  function Tokenize(t: Bytes): seq<Token> {
    if t == [] then []
    else if t[0] == DOLLAR && |t| > 1 && t[1] == DOLLAR then [Escaped] + Tokenize(t[2..])
    else if t[0] == DOLLAR && |t| > 1 && Binds(t[1]) then [Group((t[1] - ZERO) as nat)] + Tokenize(t[2..])
    else [Plain(t[0])] + Tokenize(t[1..])
  }

  lemma {:induction false} TokenizeSpells(t: Bytes)
    ensures SpellAll(Tokenize(t)) == t
    ensures Proper(Tokenize(t))
  {
    if t != [] {
      var k := Width(t);
      TokenizeSpells(t[k..]);
      var rest := Tokenize(t[k..]);
      assert Tokenize(t)[1..] == rest;
      if rest != [] { assert Spell(rest[0]) + SpellAll(rest[1..]) == t[k..]; }
    }
  }

  /** The grammar is unambiguous: a template has exactly one proper tokenisation. */
  lemma {:induction false} TokenizeIsTheOnlyOne(ts: seq<Token>)
    requires Proper(ts)
    ensures Tokenize(SpellAll(ts)) == ts
  {
    if ts != [] {
      var rest := ts[1..];
      assert Proper(rest) by {
        forall i, j | 0 <= i < j < |rest| && j == i + 1 && rest[i] == Plain(DOLLAR)
          ensures !Binds(Spell(rest[j])[0])
        {
          assert ts[i + 1] == rest[i] && ts[j + 1] == rest[j];
        }
      }
      TokenizeIsTheOnlyOne(rest);
      var t := SpellAll(ts);
      assert t == Spell(ts[0]) + SpellAll(rest);
      assert t[|Spell(ts[0])|..] == SpellAll(rest);
      if ts[0] == Plain(DOLLAR) && rest != [] {
        assert ts[1] == rest[0];
        assert SpellAll(rest)[0] == Spell(rest[0])[0];
      }
    }
  }

  // ---- What a template means for one regex match ----

  /** Group `g` is unmatched, or a range of a path of length `n`. */
  predicate GroupOk(m: seq<int>, g: nat, n: nat)
    requires 2 * g + 1 < |m|
  {
    (m[2 * g] == -1 && m[2 * g + 1] == -1) || 0 <= m[2 * g] <= m[2 * g + 1] <= n
  }

  /** Submatch indices as the regexp package returns them. */
  ghost predicate WellFormedMatch(m: seq<int>, n: nat) {
    |m| % 2 == 0 && forall g: nat | 2 * g + 1 < |m| :: GroupOk(m, g, n)
  }

  /** The text of group `n`; nothing for an unmatched or missing group. */
  function GroupText(n: nat, path: Bytes, m: seq<int>): Bytes
    requires WellFormedMatch(m, |path|)
  {
    if 2 * n + 1 < |m| && m[2 * n] >= 0 then
      assert GroupOk(m, n, |path|);
      path[m[2 * n]..m[2 * n + 1]]
    else []
  }

  function Meaning(t: Token, path: Bytes, m: seq<int>): Bytes
    requires WellFormedMatch(m, |path|)
  {
    match t
    case Escaped => [DOLLAR]
    case Group(n) => GroupText(n, path, m)
    case Plain(b) => [b]
  }

  function MeaningAll(ts: seq<Token>, path: Bytes, m: seq<int>): Bytes
    requires WellFormedMatch(m, |path|)
  {
    if ts == [] then [] else Meaning(ts[0], path, m) + MeaningAll(ts[1..], path, m)
  }

  function Expansion(template: Bytes, path: Bytes, m: seq<int>): Bytes
    requires WellFormedMatch(m, |path|)
  {
    MeaningAll(Tokenize(template), path, m)
  }

  method ExpandRegexRewrite(template: Bytes, path: Bytes, m: Option<seq<int>>) returns (r: Bytes)
    requires m.Some? ==> WellFormedMatch(m.value, |path|)
    ensures m.None? ==> r == template
    ensures m.Some? ==> r == Expansion(template, path, m.value)
  {
    if m.None? { return template; }
    var submatch := m.value;
    r := [];
    var i := 0;
    assert template[0..] == template;
    while i < |template|
      invariant 0 <= i <= |template|
      invariant r + Expansion(template[i..], path, submatch) == Expansion(template, path, submatch)
    {
      Consume(template, i, r, path, submatch);
      if template[i] != DOLLAR || i + 1 >= |template| {
        r := r + [template[i]];
        i := i + 1;
      } else {
        var next := template[i + 1];
        if next == DOLLAR {
          r := r + [DOLLAR];
          i := i + 2;
        } else if ZERO <= next <= NINE {
          r := r + GroupText((next - ZERO) as nat, path, submatch);
          i := i + 2;
        } else {
          r := r + [template[i]];
          i := i + 1;
        }
      }
    }
  }

  /** Reading one token moves its meaning from the rest of the template to the output. */
  lemma Consume(template: Bytes, i: nat, done: Bytes, path: Bytes, m: seq<int>)
    requires i < |template| && WellFormedMatch(m, |path|)
    ensures var rest, k := template[i..], Width(template[i..]);
            && i + k <= |template|
            && (done + Meaning(First(rest), path, m)) + Expansion(template[i + k..], path, m)
               == done + Expansion(rest, path, m)
  {
  }

  /** Bytes taken by the first token. */
  function Width(t: Bytes): (k: nat)
    requires t != []
    ensures k <= |t|
  {
    if t[0] == DOLLAR && |t| > 1 && Binds(t[1]) then 2 else 1
  }

  function First(t: Bytes): Token
    requires t != []
  {
    if Width(t) == 1 then Plain(t[0]) else if t[1] == DOLLAR then Escaped else Group((t[1] - ZERO) as nat)
  }

  lemma FirstToken(t: Bytes, path: Bytes, m: seq<int>)
    requires t != [] && WellFormedMatch(m, |path|)
    ensures Expansion(t, path, m) == Meaning(First(t), path, m) + Expansion(t[Width(t)..], path, m)
  {
  }

  // ---- Laws ----

  lemma {:induction false} SpellAllAppend(xs: seq<Token>, ys: seq<Token>)
    ensures SpellAll(xs + ys) == SpellAll(xs) + SpellAll(ys)
  {
    if xs == [] {
      assert xs + ys == ys;
    } else {
      assert (xs + ys)[1..] == xs[1..] + ys;
      SpellAllAppend(xs[1..], ys);
    }
  }

  lemma {:induction false} MeaningAllAppend(xs: seq<Token>, ys: seq<Token>, path: Bytes, m: seq<int>)
    requires WellFormedMatch(m, |path|)
    ensures MeaningAll(xs + ys, path, m) == MeaningAll(xs, path, m) + MeaningAll(ys, path, m)
  {
    if xs == [] {
      assert xs + ys == ys;
    } else {
      assert (xs + ys)[1..] == xs[1..] + ys;
      MeaningAllAppend(xs[1..], ys, path, m);
    }
  }

  /** A lone '$' at the end of `a` meets a byte it binds to at the start of `b`. */
  predicate SplitsToken(a: Bytes, b: Bytes) {
    var ts := Tokenize(a);
    ts != [] && ts[|ts| - 1] == Plain(DOLLAR) && b != [] && Binds(b[0])
  }

  lemma ProperAppend(xs: seq<Token>, ys: seq<Token>)
    requires Proper(xs) && Proper(ys)
    ensures Proper(xs + ys)
       <==> !(xs != [] && ys != [] && xs[|xs| - 1] == Plain(DOLLAR) && Binds(Spell(ys[0])[0]))
  {
    var zs := xs + ys;
    if xs != [] && ys != [] {
      assert zs[|xs| - 1] == xs[|xs| - 1] && zs[|xs|] == ys[0];
    }
    forall i, j | 0 <= i < j < |zs| && j == i + 1 && zs[i] == Plain(DOLLAR) && j != |xs|
      ensures !Binds(Spell(zs[j])[0])
    {
      if j < |xs| {
        assert xs[i] == zs[i] && xs[j] == zs[j];
      } else {
        assert ys[i - |xs|] == zs[i] && ys[j - |xs|] == zs[j];
      }
    }
  }

  /** Tokens distribute over a cut of the template exactly when the cut splits no token. */
  lemma TokenBoundary(a: Bytes, b: Bytes)
    ensures Tokenize(a + b) == Tokenize(a) + Tokenize(b) <==> !SplitsToken(a, b)
  {
    var xs, ys := Tokenize(a), Tokenize(b);
    TokenizeSpells(a);
    TokenizeSpells(b);
    TokenizeSpells(a + b);
    SpellAllAppend(xs, ys);
    ProperAppend(xs, ys);
    assert b != [] ==> b[0] == Spell(ys[0])[0];
    if !SplitsToken(a, b) {
      TokenizeIsTheOnlyOne(xs + ys);
    }
  }

  lemma ExpansionDistributes(a: Bytes, b: Bytes, path: Bytes, m: seq<int>)
    requires WellFormedMatch(m, |path|) && !SplitsToken(a, b)
    ensures Expansion(a + b, path, m) == Expansion(a, path, m) + Expansion(b, path, m)
  {
    TokenBoundary(a, b);
    MeaningAllAppend(Tokenize(a), Tokenize(b), path, m);
  }

  function Reference(n: nat): Bytes
    requires n <= 9
  {
    [DOLLAR, ZERO + n as Byte]
  }

  lemma LeadingReference(n: nat, b: Bytes, path: Bytes, m: seq<int>)
    requires WellFormedMatch(m, |path|) && n <= 9
    ensures 2 * n + 1 < |m| ==> GroupOk(m, n, |path|)
    ensures Expansion(Reference(n) + b, path, m)
         == (if 2 * n + 1 < |m| && m[2 * n] != -1 then path[m[2 * n]..m[2 * n + 1]] else []) + Expansion(b, path, m)
  {
    var t := Reference(n) + b;
    FirstToken(t, path, m);
    assert Width(t) == 2 && First(t) == Group(n) && t[2..] == b;
  }

  /** A reference stands for the text of its group, nothing for an unmatched or missing one, and only
      one digit belongs to it. */
  lemma ReferenceExpands(a: Bytes, n: nat, b: Bytes, path: Bytes, m: seq<int>)
    requires WellFormedMatch(m, |path|) && n <= 9 && !SplitsToken(a, Reference(n))
    ensures 2 * n + 1 < |m| ==> GroupOk(m, n, |path|)
    ensures Expansion(a + (Reference(n) + b), path, m)
         == Expansion(a, path, m)
            + ((if 2 * n + 1 < |m| && m[2 * n] != -1 then path[m[2 * n]..m[2 * n + 1]] else [])
               + Expansion(b, path, m))
  {
    LeadingReference(n, b, path, m);
    ExpansionDistributes(a, Reference(n) + b, path, m);
  }

  /** Double every '$'. */
  function Escape(s: Bytes): Bytes {
    if s == [] then []
    else (if s[0] == DOLLAR then [DOLLAR, DOLLAR] else [s[0]]) + Escape(s[1..])
  }

  /** Expansion undoes the escape for every string and every match. */
  lemma {:induction false} ExpansionUndoesEscape(s: Bytes, path: Bytes, m: seq<int>)
    requires WellFormedMatch(m, |path|)
    ensures Expansion(Escape(s), path, m) == s
  {
    if s != [] {
      var t, rest := Escape(s), Escape(s[1..]);
      ExpansionUndoesEscape(s[1..], path, m);
      FirstToken(t, path, m);
      if s[0] == DOLLAR {
        assert First(t) == Escaped && t[2..] == rest;
      } else {
        assert First(t) == Plain(s[0]) && t[1..] == rest;
      }
      assert s == [s[0]] + s[1..];
    }
  }

  /** A template in which no '$' meets a byte it binds to is left as it is, whatever the match. */
  lemma {:induction false} UnboundDollarsStay(t: Bytes, path: Bytes, m: seq<int>)
    requires WellFormedMatch(m, |path|)
    requires forall i, j | 0 <= i < j < |t| && j == i + 1 && t[i] == DOLLAR :: !Binds(t[j])
    ensures Expansion(t, path, m) == t
  {
    if t != [] {
      var rest := t[1..];
      forall i, j | 0 <= i < j < |rest| && j == i + 1 && rest[i] == DOLLAR ensures !Binds(rest[j]) {
        assert t[i + 1] == rest[i] && t[j + 1] == rest[j];
      }
      UnboundDollarsStay(rest, path, m);
      FirstToken(t, path, m);
    }
  }
}
