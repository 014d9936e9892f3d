/** A reference description of the command language. For each shape it names
    the pieces a line consists of when the agent's regular expression accepts
    it, written with concatenation instead of a left-to-right scan. The lemmas
    prove that the parser yields a command exactly when the stripped line
    consists of such pieces, and that the command carries the arguments those
    pieces name. */
module Grammar {
  import opened Wrappers
  import opened Text
  import opened Commands

  // ---------- Pieces ----------

  /** `\s+` */
  predicate Blank1(w: string) {
    |w| > 0 && AllSpace(w)
  }

  /** `\d+` */
  predicate Digits1(d: string) {
    |d| > 0 && AllDigits(d)
  }

  /** `/canales` followed by `\s+(.+)`. The whitespace run is greedy, so the
      filter starts after the whole run; `.` refuses a line break. */
  predicate CanalesParts(t: string, f: string, k: string, w: string) {
    && t == k + (w + f)
    && Folds(k, "/canales") && Blank1(w)
    && |f| > 0 && !IsSpace(f[0]) && NoNewline(f)
  }

  /** `^/canales(?:\s+(.+))?$`: the bare keyword, or the keyword with a
      filter. */
  ghost predicate CanalesForm(t: string, filter: Option<string>) {
    match filter
    case None => Folds(t, "/canales")
    case Some(f) => exists k, w :: CanalesParts(t, f, k, w)
  }

  /** `^/setcanal\s+(\d+)\s+alias=([A-Za-z0-9_]{1,32})\s*$`, with the index
      the digit run spells. */
  predicate SetCanalParts(
    t: string, index: nat, a: string,
    k: string, w1: string, d: string, w2: string, k2: string, w3: string)
  {
    && t == k + (w1 + (d + (w2 + (k2 + (a + w3)))))
    && Folds(k, "/setcanal") && Blank1(w1) && Digits1(d) && DecimalValue(d) == index
    && Blank1(w2) && Folds(k2, "alias=") && ValidAlias(a) && AllSpace(w3)
  }

  ghost predicate SetCanalForm(t: string, index: nat, a: string) {
    exists k, w1, d, w2, k2, w3 :: SetCanalParts(t, index, a, k, w1, d, w2, k2, w3)
  }

  /** `^/delalias\s+([A-Za-z0-9_]{1,32})\s*$` */
  predicate DelAliasParts(t: string, a: string, k: string, w1: string, w2: string) {
    && t == k + (w1 + (a + w2))
    && Folds(k, "/delalias") && Blank1(w1) && ValidAlias(a) && AllSpace(w2)
  }

  ghost predicate DelAliasForm(t: string, a: string) {
    exists k, w1, w2 :: DelAliasParts(t, a, k, w1, w2)
  }

  /** `"\s+(\d+)\s*$`, the end of `RE_BUSCAR`, with the count it spells. */
  predicate TailParts(s: string, n: nat, w1: string, d: string, w2: string) {
    && s == "\"" + (w1 + (d + w2))
    && Blank1(w1) && Digits1(d) && DecimalValue(d) == n && AllSpace(w2)
  }

  ghost predicate TailForm(s: string, n: nat) {
    exists w1, d, w2 :: TailParts(s, n, w1, d, w2)
  }

  /** The lazy `(.+?)` before the tail: `q` is the shortest non-empty prefix
      of `r` without a line break after which the tail matches. */
  ghost predicate LazyGroup(r: string, q: string, n: nat) {
    && 1 <= |q| <= |r| && q == r[..|q|] && NoNewline(q)
    && TailForm(r[|q|..], n)
    && forall j: nat, m: nat :: 1 <= j < |q| ==> !TailForm(r[j..], m)
  }

  /** `^/buscar\s+([A-Za-z0-9_]{1,32})\s+"` followed by `r`. */
  predicate BuscarParts(t: string, a: string, r: string, k: string, w1: string, w2: string) {
    && t == k + (w1 + (a + (w2 + ("\"" + r))))
    && Folds(k, "/buscar") && Blank1(w1) && ValidAlias(a) && Blank1(w2)
  }

  /** `^/buscar\s+([A-Za-z0-9_]{1,32})\s+"(.+?)"\s+(\d+)\s*$` */
  ghost predicate BuscarForm(t: string, a: string, q: string, n: nat) {
    exists r, k, w1, w2 :: BuscarParts(t, a, r, k, w1, w2) && LazyGroup(r, q, n)
  }

  /** The command a stripped line denotes by the reference description. */
  ghost predicate Denotes(t: string, c: Command) {
    match c
    case Help => IsHelp(t)
    case Canales(f) => CanalesForm(t, f)
    case SetCanal(i, a) => SetCanalForm(t, i, a)
    case Aliases => IsAliases(t)
    case DelAlias(a) => DelAliasForm(t, a)
    case Buscar(a, q, n) => BuscarForm(t, a, q, n)
  }

  // ---------- The recogniser's steps against the pieces ----------

  /** Whitespace shares no character with the classes that follow a
      whitespace run in the patterns. */
  lemma SpaceIsNothingElse(c: char)
    ensures IsSpace(c) ==> !IsDigit(c) && !IsAliasChar(c) && !FoldMatch(c, 'a') && c != '"'
  {
  }

  lemma KeywordJoin(k: string, x: string, kw: string)
    requires Folds(k, kw)
    ensures Keyword(k + x, kw) == Some(x)
  {
    assert (k + x)[..|kw|] == k;
    assert (k + x)[|kw|..] == x;
  }

  lemma KeywordSplit(t: string, kw: string) returns (k: string, x: string)
    requires Keyword(t, kw).Some?
    ensures Keyword(t, kw) == Some(x) && t == k + x && Folds(k, kw)
  {
    k, x := t[..|kw|], t[|kw|..];
    assert t == k + x;
  }

  lemma {:induction false} SpanJoin(s: string, u: string, p: char -> bool)
    requires forall i :: 0 <= i < |s| ==> p(s[i])
    requires |u| == 0 || !p(u[0])
    ensures Span(s + u, p) == |s|
  {
    if |s| == 0 {
      assert s + u == u;
    } else {
      assert (s + u)[1..] == s[1..] + u;
      SpanJoin(s[1..], u, p);
    }
  }

  lemma SpacesJoin(w: string, u: string)
    requires Blank1(w) && (|u| == 0 || !IsSpace(u[0]))
    ensures Spaces1(w + u) == Some(u)
  {
    SpanJoin(w, u, IsSpace);
    assert (w + u)[|w|..] == u;
  }

  lemma SpacesSplit(t: string) returns (w: string, u: string)
    requires Spaces1(t).Some?
    ensures Spaces1(t) == Some(u) && t == w + u && Blank1(w)
    ensures |u| == 0 || !IsSpace(u[0])
  {
    var n := Span(t, IsSpace);
    w, u := t[..n], t[n..];
    assert forall i :: 0 <= i < |w| ==> w[i] == t[i];
    assert |u| > 0 ==> u[0] == t[n];
    assert t == w + u;
  }

  lemma NumberJoin(d: string, u: string)
    requires Digits1(d) && (|u| == 0 || !IsDigit(u[0]))
    ensures Number(d + u) == Some((DecimalValue(d), u))
  {
    SpanJoin(d, u, IsDigit);
    assert (d + u)[..|d|] == d;
    assert (d + u)[|d|..] == u;
  }

  lemma NumberSplit(t: string) returns (d: string, u: string)
    requires Number(t).Some?
    ensures Digits1(d) && Number(t) == Some((DecimalValue(d), u)) && t == d + u
    ensures |u| == 0 || !IsDigit(u[0])
  {
    var n := Span(t, IsDigit);
    d, u := t[..n], t[n..];
    assert forall i :: 0 <= i < |d| ==> d[i] == t[i];
    assert |u| > 0 ==> u[0] == t[n];
    assert t == d + u;
  }

  lemma AliasJoin(a: string, u: string)
    requires ValidAlias(a) && (|u| == 0 || !IsAliasChar(u[0]))
    ensures AliasArg(a + u) == Some((a, u))
  {
    SpanJoin(a, u, IsAliasChar);
    assert (a + u)[..|a|] == a;
    assert (a + u)[|a|..] == u;
  }

  lemma AliasSplit(t: string) returns (a: string, u: string)
    requires AliasArg(t).Some?
    ensures AliasArg(t) == Some((a, u)) && t == a + u && ValidAlias(a)
  {
    var n := Span(t, IsAliasChar);
    a, u := t[..n], t[n..];
    assert forall i :: 0 <= i < |a| ==> a[i] == t[i];
    assert t == a + u;
  }

  // ---------- Each recogniser accepts exactly its shape ----------

  /** `RE_CANALES` on a stripped line yields `Canales(filter)` if and only
      if the line is the bare keyword (no filter) or the keyword, a
      whitespace run and exactly that filter. */
  lemma CanalesGrammar(t: string, filter: Option<string>)
    requires IsStripped(t)
    ensures MatchCanales(t) == Some(Canales(filter)) <==> CanalesForm(t, filter)
  {
    if MatchCanales(t) == Some(Canales(filter)) {
      var k, rest := KeywordSplit(t, "/canales");
      if filter.Some? {
        var w, f := SpacesSplit(rest);
        assert CanalesParts(t, filter.value, k, w);
      } else {
        assert t == k + [];
      }
    }
    if CanalesForm(t, filter) {
      match filter
      case None =>
        KeywordJoin(t, [], "/canales");
        assert t + [] == t;
      case Some(f) =>
        var k, w :| CanalesParts(t, f, k, w);
        KeywordJoin(k, w + f, "/canales");
        SpacesJoin(w, f);
    }
  }

  lemma SetCanalMatchHasForm(t: string, i: nat, a: string)
    requires MatchSetCanal(t) == Some(SetCanal(i, a))
    ensures SetCanalForm(t, i, a)
  {
    var k, r0 := KeywordSplit(t, "/setcanal");
    var w1, r1 := SpacesSplit(r0);
    var d, u := NumberSplit(r1);
    var w2, r2 := SpacesSplit(u);
    var k2, r3 := KeywordSplit(r2, "alias=");
    var a', w3 := AliasSplit(r3);
    assert SetCanalParts(t, i, a, k, w1, d, w2, k2, w3);
  }

  lemma SetCanalFormMatches(t: string, i: nat, a: string)
    requires SetCanalForm(t, i, a)
    ensures MatchSetCanal(t) == Some(SetCanal(i, a))
  {
    var k, w1, d, w2, k2, w3 :| SetCanalParts(t, i, a, k, w1, d, w2, k2, w3);
    var r3 := a + w3;
    var r2 := k2 + r3;
    var u := w2 + r2;
    var r1 := d + u;
    KeywordJoin(k, w1 + r1, "/setcanal");
    SpaceIsNothingElse(d[0]);
    SpacesJoin(w1, r1);
    SpaceIsNothingElse(w2[0]);
    NumberJoin(d, u);
    SpaceIsNothingElse(k2[0]);
    SpacesJoin(w2, r2);
    KeywordJoin(k2, r3, "alias=");
    if |w3| > 0 {
      SpaceIsNothingElse(w3[0]);
    }
    AliasJoin(a, w3);
  }

  /** `RE_SETCANAL` yields `SetCanal(i, a)` if and only if the line is the
      keyword, whitespace, digits spelling `i`, whitespace, `alias=` up to
      case, the alias `a` and trailing whitespace. */
  lemma SetCanalGrammar(t: string, i: nat, a: string)
    ensures MatchSetCanal(t) == Some(SetCanal(i, a)) <==> SetCanalForm(t, i, a)
  {
    if MatchSetCanal(t) == Some(SetCanal(i, a)) {
      SetCanalMatchHasForm(t, i, a);
    }
    if SetCanalForm(t, i, a) {
      SetCanalFormMatches(t, i, a);
    }
  }

  /** `RE_DELALIAS` yields `DelAlias(a)` if and only if the line is the
      keyword, whitespace, the alias `a` and trailing whitespace. */
  lemma DelAliasGrammar(t: string, a: string)
    ensures MatchDelAlias(t) == Some(DelAlias(a)) <==> DelAliasForm(t, a)
  {
    if MatchDelAlias(t) == Some(DelAlias(a)) {
      var k, r0 := KeywordSplit(t, "/delalias");
      var w1, r1 := SpacesSplit(r0);
      var a', w2 := AliasSplit(r1);
      assert DelAliasParts(t, a, k, w1, w2);
    }
    if DelAliasForm(t, a) {
      var k, w1, w2 :| DelAliasParts(t, a, k, w1, w2);
      KeywordJoin(k, w1 + (a + w2), "/delalias");
      SpaceIsNothingElse(a[0]);
      SpacesJoin(w1, a + w2);
      if |w2| > 0 {
        SpaceIsNothingElse(w2[0]);
      }
      AliasJoin(a, w2);
    }
  }

  /** The tail recogniser accepts exactly the tail shape, with its count. */
  lemma QueryTailGrammar(s: string, n: nat)
    ensures QueryTail(s) == Some(n) <==> TailForm(s, n)
  {
    if QueryTail(s) == Some(n) {
      var w1, r1 := SpacesSplit(s[1..]);
      var d, w2 := NumberSplit(r1);
      assert s == "\"" + s[1..];
      assert TailParts(s, n, w1, d, w2);
    }
    if TailForm(s, n) {
      var w1, d, w2 :| TailParts(s, n, w1, d, w2);
      assert s[1..] == w1 + (d + w2);
      SpaceIsNothingElse(d[0]);
      SpacesJoin(w1, d + w2);
      if |w2| > 0 {
        SpaceIsNothingElse(w2[0]);
      }
      NumberJoin(d, w2);
    }
  }

  /** The search over prefix lengths finds exactly the lazy group. */
  lemma LazyQueryGrammar(r: string, q: string, n: nat)
    ensures LazyQuery(r, 1) == Some((q, n)) <==> LazyGroup(r, q, n)
  {
    assert NoNewline(r[..0]);
    var res := LazyQuery(r, 1);
    if res.Some? {
      LazyQueryFound(r, 1);
    } else {
      LazyQueryMissed(r, 1);
    }
    if res == Some((q, n)) {
      QueryTailGrammar(r[|q|..], n);
      forall j: nat, m: nat | 1 <= j < |q|
        ensures !TailForm(r[j..], m)
      {
        QueryTailGrammar(r[j..], m);
      }
    }
    if LazyGroup(r, q, n) {
      QueryTailGrammar(r[|q|..], n);
      assert r[..|q|] == q;
      assert res.Some?;
      var q', n' := res.value.0, res.value.1;
      QueryTailGrammar(r[|q'|..], n');
      assert |q'| == |q|;
    }
  }

  lemma BuscarArgsSteps(r0: string) returns (r: string, w1: string, w2: string)
    requires BuscarArgs(r0).Some?
    ensures var c := BuscarArgs(r0).value;
      && r0 == w1 + (c.alias + (w2 + ("\"" + r)))
      && Blank1(w1) && ValidAlias(c.alias) && Blank1(w2)
      && LazyQuery(r, 1) == Some((c.query, c.count))
  {
    var r1, a, u, r2;
    w1, r1 := SpacesSplit(r0);
    a, u := AliasSplit(r1);
    w2, r2 := SpacesSplit(u);
    r := r2[1..];
    assert r2 == "\"" + r;
  }

  lemma BuscarSteps(t: string) returns (r: string, k: string, w1: string, w2: string)
    requires MatchBuscar(t).Some?
    ensures var c := MatchBuscar(t).value;
      && BuscarParts(t, c.alias, r, k, w1, w2)
      && LazyQuery(r, 1) == Some((c.query, c.count))
  {
    var r0;
    k, r0 := KeywordSplit(t, "/buscar");
    r, w1, w2 := BuscarArgsSteps(r0);
  }

  lemma BuscarMatchHasForm(t: string, a: string, q: string, n: nat)
    requires MatchBuscar(t) == Some(Buscar(a, q, n))
    ensures BuscarForm(t, a, q, n)
  {
    var r, k, w1, w2 := BuscarSteps(t);
    LazyQueryGrammar(r, q, n);
    assert BuscarParts(t, a, r, k, w1, w2);
  }

  lemma BuscarFormMatches(t: string, a: string, q: string, n: nat)
    requires BuscarForm(t, a, q, n)
    ensures MatchBuscar(t) == Some(Buscar(a, q, n))
  {
    var r, k, w1, w2 :| BuscarParts(t, a, r, k, w1, w2) && LazyGroup(r, q, n);
    var r2 := "\"" + r;
    var u := w2 + r2;
    var r1 := a + u;
    KeywordJoin(k, w1 + r1, "/buscar");
    SpaceIsNothingElse(a[0]);
    SpacesJoin(w1, r1);
    SpaceIsNothingElse(w2[0]);
    AliasJoin(a, u);
    SpaceIsNothingElse('"');
    SpacesJoin(w2, r2);
    assert r2[1..] == r;
    LazyQueryGrammar(r, q, n);
  }

  /** `RE_BUSCAR` yields `Buscar(a, q, n)` if and only if the line is the
      keyword, whitespace, the alias `a`, whitespace, a quote, and then the
      lazy group `q` with a tail spelling `n`. */
  lemma BuscarGrammar(t: string, a: string, q: string, n: nat)
    ensures MatchBuscar(t) == Some(Buscar(a, q, n)) <==> BuscarForm(t, a, q, n)
  {
    if MatchBuscar(t) == Some(Buscar(a, q, n)) {
      BuscarMatchHasForm(t, a, q, n);
    }
    if BuscarForm(t, a, q, n) {
      BuscarFormMatches(t, a, q, n);
    }
  }

  /** The parser agrees with the reference description on every line: it
      yields `c` if and only if the stripped line denotes `c`. So a line
      that denotes no command yields none, and no line denotes two. */
  lemma ParseDenotes(raw: string, c: Command)
    ensures Parse(raw) == Some(c) <==> Denotes(Strip(raw), c)
  {
    var t := Strip(raw);
    assert Parse(raw) == ParseStripped(t);
    match c
    case Help =>
    case Aliases =>
    case Canales(f) => CanalesGrammar(t, f);
    case SetCanal(i, a) => SetCanalGrammar(t, i, a);
    case DelAlias(a) => DelAliasGrammar(t, a);
    case Buscar(a, q, n) => BuscarGrammar(t, a, q, n);
  }
}
