/** The canonical text of each command and the proof that the router reads it
    back: every well-formed command survives rendering and parsing. */
module CommandText {
  import opened Wrappers
  import opened Text
  import opened Commands
  import opened Grammar

  /** The text the usage message teaches for each command. */
  function Render(c: Command): string {
    match c
    case Help => "/ayuda"
    case Canales(None) => "/canales"
    case Canales(Some(f)) => "/canales " + f
    case SetCanal(i, a) => "/setcanal " + NatToDecimal(i) + " alias=" + a
    case Aliases => "/aliases"
    case DelAlias(a) => "/delalias " + a
    case Buscar(a, q, n) => "/buscar " + a + " \"" + q + "\" " + NatToDecimal(n)
  }

  /** After the quote of a matched tail only whitespace and digits follow. */
  lemma TailHasOneQuote(s: string, n: nat)
    requires TailForm(s, n)
    ensures forall i :: 1 <= i < |s| ==> s[i] != '"'
  {
    var w1, d, w2 :| TailParts(s, n, w1, d, w2);
    forall i | 1 <= i < |s|
      ensures s[i] != '"'
    {
      var j := i - 1;
      if j < |w1| {
        assert s[i] == w1[j];
      } else if j - |w1| < |d| {
        assert s[i] == d[j - |w1|];
      } else {
        assert s[i] == w2[j - |w1| - |d|];
      }
    }
  }

  /** In `q" N` the lazy group is `q`, whatever quotes `q` itself holds: a
      tail cannot start at an earlier quote, because the quote closing `q`
      would follow it. */
  lemma LazyFindsQuery(q: string, d: string)
    requires |q| > 0 && NoNewline(q) && Digits1(d)
    ensures LazyGroup(q + ("\" " + d), q, DecimalValue(d))
  {
    var r := q + ("\" " + d);
    assert r[..|q|] == q;
    assert r[|q|..] == "\"" + (" " + (d + []));
    assert TailParts(r[|q|..], DecimalValue(d), " ", d, []);
    forall j: nat, m: nat | 1 <= j < |q|
      ensures !TailForm(r[j..], m)
    {
      assert r[j..][|q| - j] == '"';
      if TailForm(r[j..], m) {
        TailHasOneQuote(r[j..], m);
      }
    }
  }

  lemma RenderIsStripped(c: Command)
    requires WellFormed(c)
    ensures IsStripped(Render(c))
  {
    match c
    case SetCanal(i, a) =>
      assert Render(c)[|Render(c)| - 1] == a[|a| - 1];
    case DelAlias(a) =>
      assert Render(c)[|Render(c)| - 1] == a[|a| - 1];
    case Buscar(a, q, n) =>
      var d := NatToDecimal(n);
      assert Render(c)[|Render(c)| - 1] == d[|d| - 1];
    case _ =>
  }

  lemma CanalesTextDenotes(f: string)
    requires WellFormed(Canales(Some(f)))
    ensures Denotes("/canales " + f, Canales(Some(f)))
  {
    assert "/canales " + f == "/canales" + (" " + f);
    assert CanalesParts("/canales " + f, f, "/canales", " ");
  }

  lemma SetCanalTextDenotes(i: nat, a: string)
    requires ValidAlias(a)
    ensures Denotes("/setcanal " + NatToDecimal(i) + " alias=" + a, SetCanal(i, a))
  {
    var d := NatToDecimal(i);
    var t := "/setcanal " + d + " alias=" + a;
    assert t == "/setcanal" + (" " + (d + (" " + ("alias=" + (a + [])))));
    assert SetCanalParts(t, i, a, "/setcanal", " ", d, " ", "alias=", []);
  }

  lemma DelAliasTextDenotes(a: string)
    requires ValidAlias(a)
    ensures Denotes("/delalias " + a, DelAlias(a))
  {
    assert "/delalias " + a == "/delalias" + (" " + (a + []));
    assert DelAliasParts("/delalias " + a, a, "/delalias", " ", []);
  }

  lemma BuscarTextDenotes(a: string, q: string, n: nat)
    requires WellFormed(Buscar(a, q, n))
    ensures Denotes("/buscar " + a + " \"" + q + "\" " + NatToDecimal(n), Buscar(a, q, n))
  {
    var d := NatToDecimal(n);
    var t := "/buscar " + a + " \"" + q + "\" " + d;
    var r := q + ("\" " + d);
    LazyFindsQuery(q, d);
    assert t == "/buscar" + (" " + (a + (" " + ("\"" + r))));
    assert BuscarParts(t, a, r, "/buscar", " ", " ");
  }

  /** The rendered text is made of the pieces of its own shape. */
  lemma RenderDenotes(c: Command)
    requires WellFormed(c)
    ensures Denotes(Render(c), c)
  {
    match c
    case Help =>
    case Aliases =>
    case Canales(None) =>
    case Canales(Some(f)) => CanalesTextDenotes(f);
    case SetCanal(i, a) => SetCanalTextDenotes(i, a);
    case DelAlias(a) => DelAliasTextDenotes(a);
    case Buscar(a, q, n) => BuscarTextDenotes(a, q, n);
  }

  /** Rendering then parsing is the identity on well-formed commands. */
  lemma ParseRender(c: Command)
    requires WellFormed(c)
    ensures Parse(Render(c)) == Some(c)
  {
    RenderIsStripped(c);
    RenderDenotes(c);
    ParseDenotes(Render(c), c);
  }
}
