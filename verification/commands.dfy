/** The command router's parser: a pure function from one line of text in the
    saved-messages chat to the command it denotes, or to nothing. Each of the
    four regular expressions of the agent is written out as a direct
    recogniser over characters; the two fixed words (`/ayuda`-style help and
    `/aliases`) are compared after lower-casing, as the router does. */
module Commands {
  import opened Wrappers
  import opened Text

  datatype Command =
    | Help
    | Canales(filter: Option<string>)
    | SetCanal(index: nat, alias: string)
    | Aliases
    | DelAlias(alias: string)
    | Buscar(alias: string, query: string, count: nat)

  const MaxAliasLength: nat := 32

  /** Whether input character `c` matches pattern character `p` under
      `re.IGNORECASE` for a `str` pattern, where `p` is ASCII and, if a letter,
      lower-case. Besides the ASCII upper-case letter, Python's engine lets
      U+0130 and U+0131 match `i`, U+017F (long s) match `s` and U+212A
      (Kelvin sign) match `k`. */
  predicate FoldMatch(c: char, p: char) {
    || c == p
    || ('a' <= p <= 'z' && c as int == p as int - 32)
    || (p == 'i' && (c == '\U{130}' || c == '\U{131}'))
    || (p == 's' && c == '\U{17F}')
    || (p == 'k' && c == '\U{212A}')
  }

  /** The class `[A-Za-z0-9_]` under `re.IGNORECASE`, which also admits the
      four non-ASCII letters that fold onto `i`, `s` and `k`. */
  predicate IsAliasChar(c: char) {
    || ('A' <= c <= 'Z') || ('a' <= c <= 'z') || ('0' <= c <= '9') || c == '_'
    || c == '\U{130}' || c == '\U{131}' || c == '\U{17F}' || c == '\U{212A}'
  }

  /** `[A-Za-z0-9_]{1,32}` matched as a whole argument. */
  predicate ValidAlias(a: string) {
    1 <= |a| <= MaxAliasLength && forall i :: 0 <= i < |a| ==> IsAliasChar(a[i])
  }

  predicate StartsWithSlash(t: string) {
    |t| > 0 && t[0] == '/'
  }

  predicate NoNewline(s: string) {
    '\n' !in s
  }

  /** What every command the parser yields satisfies. */
  predicate WellFormed(c: Command) {
    match c
    case Canales(f) => f.Some? ==> |f.value| > 0 && IsStripped(f.value) && NoNewline(f.value)
    case SetCanal(_, a) => ValidAlias(a)
    case DelAlias(a) => ValidAlias(a)
    case Buscar(a, q, _) => ValidAlias(a) && |q| > 0 && NoNewline(q)
    case _ => true
  }

  // ---------- Pieces of the patterns ----------

  /** `k` spells the keyword `kw` up to case, as `re.IGNORECASE` compares. */
  predicate Folds(k: string, kw: string) {
    |k| == |kw| && forall i :: 0 <= i < |k| ==> FoldMatch(k[i], kw[i])
  }

  /** A literal keyword matched case-insensitively at the start of `t`;
      yields the rest of the text. */
  function Keyword(t: string, kw: string): (r: Option<string>)
    ensures r.Some? ==> |kw| <= |t| && r.value == t[|kw|..]
    ensures r.Some? && |kw| > 0 ==> FoldMatch(t[0], kw[0])
  {
    if |kw| <= |t| && Folds(t[..|kw|], kw) then Some(t[|kw|..]) else None
  }

  /** `\s+` */
  function Spaces1(t: string): Option<string> {
    var n := Span(t, IsSpace);
    if n == 0 then None else Some(t[n..])
  }

  /** `\s*$` */
  predicate AllSpace(t: string) {
    forall i :: 0 <= i < |t| ==> IsSpace(t[i])
  }

  /** `(\d+)` followed by something that is not a digit, with its `int()`. */
  function Number(t: string): Option<(nat, string)> {
    var n := Span(t, IsDigit);
    if n == 0 then None else Some((DecimalValue(t[..n]), t[n..]))
  }

  /** `([A-Za-z0-9_]{1,32})` followed by `\s`; a longer run of alias
      characters can never be followed by the whitespace or end the patterns
      require next, so it is refused here already. */
  function AliasArg(t: string): Option<(string, string)> {
    var n := Span(t, IsAliasChar);
    if 1 <= n <= MaxAliasLength then Some((t[..n], t[n..])) else None
  }

  // ---------- The six command shapes ----------

  /** `text.lower() in ("/ayuda", "/help", "/start")` */
  predicate IsHelp(t: string) {
    var l := LowerAscii(t);
    l == "/ayuda" || l == "/help" || l == "/start"
  }

  /** `text.lower() == "/aliases"` */
  predicate IsAliases(t: string) {
    LowerAscii(t) == "/aliases"
  }

  /** `^/canales(?:\s+(.+))?$` on stripped text: the optional group is what
      follows the run of whitespace, and `.` refuses a line break. */
  function MatchCanales(t: string): (r: Option<Command>)
    requires IsStripped(t)
    ensures r.Some? ==> r.value.Canales? && WellFormed(r.value) && StartsWithSlash(t)
    ensures r.Some? ==> Keyword(t, "/canales").Some?
  {
    var rest :- Keyword(t, "/canales");
    if |rest| == 0 then Some(Canales(None))
    else
      var f :- Spaces1(rest);
      if NoNewline(f) then Some(Canales(Some(f))) else None
  }

  /** `^/setcanal\s+(\d+)\s+alias=([A-Za-z0-9_]{1,32})\s*$` */
  function MatchSetCanal(t: string): (r: Option<Command>)
    ensures r.Some? ==> r.value.SetCanal? && WellFormed(r.value) && StartsWithSlash(t)
    ensures r.Some? ==> Keyword(t, "/setcanal").Some?
  {
    var r0 :- Keyword(t, "/setcanal");
    var r1 :- Spaces1(r0);
    var num :- Number(r1);
    var r2 :- Spaces1(num.1);
    var r3 :- Keyword(r2, "alias=");
    var a :- AliasArg(r3);
    if AllSpace(a.1) then Some(SetCanal(num.0, a.0)) else None
  }

  /** `^/delalias\s+([A-Za-z0-9_]{1,32})\s*$` */
  function MatchDelAlias(t: string): (r: Option<Command>)
    ensures r.Some? ==> r.value.DelAlias? && WellFormed(r.value) && StartsWithSlash(t)
    ensures r.Some? ==> Keyword(t, "/delalias").Some?
  {
    var r0 :- Keyword(t, "/delalias");
    var r1 :- Spaces1(r0);
    var a :- AliasArg(r1);
    if AllSpace(a.1) then Some(DelAlias(a.0)) else None
  }

  /** The part of `RE_BUSCAR` after the query: `"\s+(\d+)\s*$`. */
  function QueryTail(s: string): Option<nat> {
    if |s| == 0 || s[0] != '"' then None
    else
      var r1 :- Spaces1(s[1..]);
      var num :- Number(r1);
      if AllSpace(num.1) then Some(num.0) else None
  }

  /** The lazy group `(.+?)` of `RE_BUSCAR` over the text `r` after the
      opening quote, trying lengths from `k` upwards: the first line-break-free
      prefix of length at least `k` after which `QueryTail` matches, together
      with the count that tail carries. */
  function LazyQuery(r: string, k: nat): (res: Option<(string, nat)>)
    requires 1 <= k <= |r| + 1
    requires NoNewline(r[..k - 1])
    decreases |r| + 1 - k
    ensures res.Some? ==>
      var q := res.value.0;
      k <= |q| <= |r| && q == r[..|q|] && NoNewline(q)
  {
    if k > |r| || r[k - 1] == '\n' then None
    else
      assert r[..k] == r[..k - 1] + [r[k - 1]];
      match QueryTail(r[k..])
      case Some(n) => Some((r[..k], n))
      case None => if k == |r| then None else LazyQuery(r, k + 1)
  }

  /** What `LazyQuery` finds is the shortest admissible prefix: the tail
      matches after it and after no shorter one of length at least `k`. */
  lemma {:induction false} LazyQueryFound(r: string, k: nat)
    requires 1 <= k <= |r| + 1
    requires NoNewline(r[..k - 1])
    requires LazyQuery(r, k).Some?
    decreases |r| + 1 - k
    ensures var q := LazyQuery(r, k).value.0;
      && QueryTail(r[|q|..]) == Some(LazyQuery(r, k).value.1)
      && forall j :: k <= j < |q| ==> QueryTail(r[j..]).None?
  {
    var tail := QueryTail(r[k..]);
    if tail.None? {
      assert r[..k] == r[..k - 1] + [r[k - 1]];
      assert LazyQuery(r, k) == LazyQuery(r, k + 1);
      LazyQueryFound(r, k + 1);
    } else {
      assert LazyQuery(r, k) == Some((r[..k], tail.value));
    }
  }

  /** When `LazyQuery` finds nothing, no line-break-free prefix of length at
      least `k` is followed by a matching tail. */
  lemma {:induction false} LazyQueryMissed(r: string, k: nat)
    requires 1 <= k <= |r| + 1
    requires NoNewline(r[..k - 1])
    requires LazyQuery(r, k).None?
    decreases |r| + 1 - k
    ensures forall j :: k <= j <= |r| && NoNewline(r[..j]) ==> QueryTail(r[j..]).None?
  {
    if k > |r| {
    } else if r[k - 1] == '\n' {
      forall j | k <= j <= |r|
        ensures !NoNewline(r[..j])
      {
        assert r[..j][k - 1] == '\n';
      }
    } else if k < |r| {
      assert r[..k] == r[..k - 1] + [r[k - 1]];
      assert LazyQuery(r, k) == LazyQuery(r, k + 1);
      LazyQueryMissed(r, k + 1);
    }
  }

  /** `^/buscar\s+([A-Za-z0-9_]{1,32})\s+"(.+?)"\s+(\d+)\s*$` */
  function MatchBuscar(t: string): (r: Option<Command>)
    ensures r.Some? ==> r.value.Buscar? && WellFormed(r.value) && StartsWithSlash(t)
    ensures r.Some? ==> Keyword(t, "/buscar").Some?
  {
    var r0 :- Keyword(t, "/buscar");
    BuscarArgs(r0)
  }

  /** What `RE_BUSCAR` demands after its keyword. */
  function BuscarArgs(r0: string): (r: Option<Command>)
    ensures r.Some? ==> r.value.Buscar? && WellFormed(r.value)
  {
    var r1 :- Spaces1(r0);
    var a :- AliasArg(r1);
    var r2 :- Spaces1(a.1);
    if |r2| == 0 || r2[0] != '"' then None
    else
      var q :- LazyQuery(r2[1..], 1);
      Some(Buscar(a.0, q.0, q.1))
  }

  /** The first letter of a line's keyword (its second character),
      lower-cased; a space when the line is too short to hold one. */
  function KeywordLetter1(t: string): char {
    if |t| > 1 then LowerChar(t[1]) else ' '
  }

  /** The second letter of a line's keyword (its third character),
      lower-cased; a space when the line is too short to hold one. */
  function KeywordLetter2(t: string): char {
    if |t| > 2 then LowerChar(t[2]) else ' '
  }

  /** `l` is the letter `p` or one of the non-ASCII letters that fold onto
      it. */
  predicate FoldsOnto(l: char, p: char) {
    || l == p
    || (p == 'i' && (l == '\U{130}' || l == '\U{131}'))
    || (p == 's' && l == '\U{17F}')
    || (p == 'k' && l == '\U{212A}')
  }

  lemma LowerOfFold(c: char, p: char)
    requires 'a' <= p <= 'z' && FoldMatch(c, p)
    ensures FoldsOnto(LowerChar(c), p)
  {
  }

  /** A line that starts with a keyword leads with that keyword's letters. */
  lemma KeywordLead(t: string, kw: string)
    requires Keyword(t, kw).Some? && |kw| > 2
    requires 'a' <= kw[1] <= 'z' && 'a' <= kw[2] <= 'z'
    ensures FoldsOnto(KeywordLetter1(t), kw[1]) && FoldsOnto(KeywordLetter2(t), kw[2])
  {
    assert t[..|kw|][1] == t[1] && t[..|kw|][2] == t[2];
    LowerOfFold(t[1], kw[1]);
    LowerOfFold(t[2], kw[2]);
  }

  lemma WordLead(t: string, w: string)
    requires LowerAscii(t) == w && |w| > 2
    ensures KeywordLetter1(t) == w[1] && KeywordLetter2(t) == w[2]
  {
    assert LowerAscii(t)[1] == LowerChar(t[1]);
    assert LowerAscii(t)[2] == LowerChar(t[2]);
  }

  lemma HelpLead(t: string)
    requires IsHelp(t)
    ensures (KeywordLetter1(t) == 'a' && KeywordLetter2(t) == 'y') || (KeywordLetter1(t) == 'h' && KeywordLetter2(t) == 'e')
         || (KeywordLetter1(t) == 's' && KeywordLetter2(t) == 't')
  {
    var l := LowerAscii(t);
    if l == "/ayuda" {
      WordLead(t, "/ayuda");
    } else if l == "/help" {
      WordLead(t, "/help");
    } else {
      WordLead(t, "/start");
    }
  }

  lemma CanalesLead(t: string)
    requires Keyword(t, "/canales").Some?
    ensures KeywordLetter1(t) == 'c'
  {
    KeywordLead(t, "/canales");
  }

  lemma SetCanalLead(t: string)
    requires Keyword(t, "/setcanal").Some?
    ensures (KeywordLetter1(t) == 's' || KeywordLetter1(t) == '\U{17F}') && KeywordLetter2(t) == 'e'
  {
    KeywordLead(t, "/setcanal");
  }

  lemma DelAliasLead(t: string)
    requires Keyword(t, "/delalias").Some?
    ensures KeywordLetter1(t) == 'd'
  {
    KeywordLead(t, "/delalias");
  }

  lemma BuscarLead(t: string)
    requires Keyword(t, "/buscar").Some?
    ensures KeywordLetter1(t) == 'b'
  {
    KeywordLead(t, "/buscar");
  }

  /** At most one of the six shapes matches a stripped line: their keywords
      already differ in the second or third character. The order in which
      the router tries them is therefore immaterial. */
  lemma ShapesDisjoint(t: string)
    requires IsStripped(t)
    ensures (if IsHelp(t) then 1 else 0) + (if MatchCanales(t).Some? then 1 else 0)
          + (if MatchSetCanal(t).Some? then 1 else 0) + (if IsAliases(t) then 1 else 0)
          + (if MatchDelAlias(t).Some? then 1 else 0) + (if MatchBuscar(t).Some? then 1 else 0)
         <= 1
  {
    if IsHelp(t) { HelpLead(t); }
    if MatchCanales(t).Some? { CanalesLead(t); }
    if MatchSetCanal(t).Some? { SetCanalLead(t); }
    if IsAliases(t) { WordLead(t, "/aliases"); }
    if MatchDelAlias(t).Some? { DelAliasLead(t); }
    if MatchBuscar(t).Some? { BuscarLead(t); }
  }

  /** The router on already stripped text: help, then `/canales`,
      `/setcanal`, `/aliases`, `/delalias`, `/buscar`, in that order. Since
      the shapes are disjoint, the result is whichever shape matches, and
      text that matches none yields no command. */
  function ParseStripped(t: string): (r: Option<Command>)
    requires IsStripped(t)
    ensures r.Some? ==> WellFormed(r.value) && StartsWithSlash(t)
    ensures r == Some(Help) <==> IsHelp(t)
    ensures r == Some(Aliases) <==> IsAliases(t)
    ensures MatchCanales(t).Some? ==> r == MatchCanales(t)
    ensures MatchSetCanal(t).Some? ==> r == MatchSetCanal(t)
    ensures MatchDelAlias(t).Some? ==> r == MatchDelAlias(t)
    ensures MatchBuscar(t).Some? ==> r == MatchBuscar(t)
    ensures r.None? <==>
      && !IsHelp(t) && MatchCanales(t).None? && MatchSetCanal(t).None?
      && !IsAliases(t) && MatchDelAlias(t).None? && MatchBuscar(t).None?
  {
    ShapesDisjoint(t);
    if IsHelp(t) then Some(Help)
    else if MatchCanales(t).Some? then MatchCanales(t)
    else if MatchSetCanal(t).Some? then MatchSetCanal(t)
    else if IsAliases(t) then Some(Aliases)
    else if MatchDelAlias(t).Some? then MatchDelAlias(t)
    else MatchBuscar(t)
  }

  /** The router: strip the line, then classify it; anything that is not one
      of the six shapes yields no command and therefore no reply. */
  function Parse(raw: string): (r: Option<Command>)
    ensures r.Some? ==> WellFormed(r.value)
    ensures r.Some? ==> |Strip(raw)| > 0 && Strip(raw)[0] == '/'
    ensures r == Some(Help) <==> IsHelp(Strip(raw))
    ensures r == Some(Aliases) <==> IsAliases(Strip(raw))
  {
    ParseStripped(Strip(raw))
  }
}
