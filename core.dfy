/**
 * Shared logic of the downloader: URL validation, platform detection, the
 * line filter that reads a list of URLs, and the mapping of an executor
 * outcome to the `(success, output)` pair that callers see.
 */
module Core {
  import opened Tipos
  import opened Texto
  import opened Proceso

  // ---------------------------------------------------------------- validar_url

  /** The three `ValidacionError`s `validar_url` can raise. */
  datatype ErrorUrl = Vacia | SinEsquema | DemasiadoCorta

  const LargoMinimo: nat := 10

  predicate TieneEsquema(s: string) {
    StartsWith(s, "http://") || StartsWith(s, "https://")
  }

  /** `validar_url`: reject the empty string, strip, demand an http(s) prefix
      and at least ten characters, and return the stripped string. */
  function ValidarUrl(url: string): (r: Result<string, ErrorUrl>)
    ensures r.Ok? ==> r.value == Strip(url) && TieneEsquema(r.value) && |r.value| >= LargoMinimo
    ensures r.Ok? ==> Strip(r.value) == r.value
    ensures r == Err(Vacia) <==> url == []
    ensures r == Err(SinEsquema) <==> url != [] && !TieneEsquema(Strip(url))
    ensures r == Err(DemasiadoCorta) <==> url != [] && TieneEsquema(Strip(url)) && |Strip(url)| < LargoMinimo
  {
    StripIdempotente(url);
    if url == [] then Err(Vacia)
    else
      var u := Strip(url);
      if !TieneEsquema(u) then Err(SinEsquema)
      else if |u| < LargoMinimo then Err(DemasiadoCorta)
      else Ok(u)
  }

  /** Validating an accepted URL again gives it back unchanged. */
  lemma ValidarUrlIdempotente(url: string)
    requires ValidarUrl(url).Ok?
    ensures ValidarUrl(ValidarUrl(url).value) == ValidarUrl(url)
  {
    var u := ValidarUrl(url).value;
    StripIdempotente(url);
    assert Strip(u) == u;
    assert u != [];
    assert TieneEsquema(Strip(u)) && |Strip(u)| >= LargoMinimo;
  }

  /** A whitespace-only string is not empty, so it gets past the first check
      and is rejected for lacking the scheme. */
  lemma {:induction false} SoloEspaciosSinEsquema(url: string)
    requires url != [] && forall i :: 0 <= i < |url| ==> EsEspacio(url[i])
    ensures Strip(url) == []
    ensures ValidarUrl(url) == Err(SinEsquema)
  {
    SoloEspaciosRecortan(url);
  }

  lemma {:induction false} SoloEspaciosRecortan(s: string)
    requires forall i :: 0 <= i < |s| ==> EsEspacio(s[i])
    ensures RecortarIzquierda(s) == []
    decreases |s|
  {
    if s != [] {
      SoloEspaciosRecortan(s[1..]);
    }
  }

  /** "http://a" has the scheme but only eight characters. */
  lemma UrlCortaRechazada()
    ensures ValidarUrl("http://a") == Err(DemasiadoCorta)
  {
    assert Strip("http://a") == "http://a" by {
      StripDeRecortada("http://a");
    }
    assert "http://a"[..7] == "http://";
  }

  // ------------------------------------------------------- detectar_plataforma

  datatype Plataforma = Facebook | Instagram | Tiktok | Youtube | Twitter | Generico

  /** `SITIOS_POPULARES`, in the insertion order a Python dict iterates in. */
  const SitiosPopulares: seq<(Plataforma, seq<string>)> := [
    (Facebook, ["facebook.com", "fb.watch", "fb.com"]),
    (Instagram, ["instagram.com"]),
    (Tiktok, ["tiktok.com"]),
    (Youtube, ["youtube.com", "youtu.be"]),
    (Twitter, ["twitter.com", "x.com"])
  ]

  /** `any(dominio in u for dominio in dominios)` */
  predicate AlgunDominio(dominios: seq<string>, u: string) {
    exists d :: d in dominios && Contains(u, d)
  }

  /** First entry of `tabla` (from position `desde`) with a fragment in `u`. */
  function Buscar(tabla: seq<(Plataforma, seq<string>)>, u: string, desde: nat): (p: Plataforma)
    requires desde <= |tabla|
    requires forall i :: 0 <= i < |tabla| ==> tabla[i].0 != Generico
    ensures p == Generico <==> forall i :: desde <= i < |tabla| ==> !AlgunDominio(tabla[i].1, u)
    ensures p != Generico ==>
      exists i :: desde <= i < |tabla| && tabla[i].0 == p && AlgunDominio(tabla[i].1, u)
        && forall j :: desde <= j < i ==> !AlgunDominio(tabla[j].1, u)
    decreases |tabla| - desde
  {
    if desde == |tabla| then Generico
    else if AlgunDominio(tabla[desde].1, u) then tabla[desde].0
    else Buscar(tabla, u, desde + 1)
  }

  /** `detectar_plataforma`: the first platform of the table one of whose
      fragments occurs in the lower-cased URL, else `generico`. */
  function DetectarPlataforma(url: string): (p: Plataforma)
    ensures p == Generico <==>
      forall i :: 0 <= i < |SitiosPopulares| ==> !AlgunDominio(SitiosPopulares[i].1, Lower(url))
    ensures p != Generico ==>
      exists i :: 0 <= i < |SitiosPopulares| && SitiosPopulares[i].0 == p
        && AlgunDominio(SitiosPopulares[i].1, Lower(url))
        && forall j :: 0 <= j < i ==> !AlgunDominio(SitiosPopulares[j].1, Lower(url))
  {
    Buscar(SitiosPopulares, Lower(url), 0)
  }

  /** Classification ignores letter case. */
  lemma DetectarIgnoraMayusculas(url: string)
    ensures DetectarPlataforma(Lower(url)) == DetectarPlataforma(url)
  {
    LowerIdempotente(url);
  }

  /** Table order decides overlaps: a Facebook fragment anywhere in the URL
      wins over every other platform. */
  lemma FacebookGanaSiempre(url: string, d: string)
    requires d in SitiosPopulares[0].1 && Contains(Lower(url), d)
    ensures DetectarPlataforma(url) == Facebook
  {
    assert AlgunDominio(SitiosPopulares[0].1, Lower(url));
  }

  // ---------------------------------------------------- leer_urls_de_archivo

  /** A stripped line that the reader skips without validating it. */
  predicate LineaIgnorada(l: string) {
    var s := Strip(l);
    s == [] || s[0] == '#'
  }

  /** The URLs kept from `lineas`, in order: every line that is neither blank
      nor a comment and whose stripped text passes `validar_url`. */
  function UrlsValidas(lineas: seq<string>): (r: seq<string>)
    ensures |r| <= |lineas|
    ensures forall i :: 0 <= i < |r| ==> ValidarUrl(r[i]) == Ok(r[i])
    decreases |lineas|
  {
    if lineas == [] then []
    else
      var n := |lineas| - 1;
      var previas := UrlsValidas(lineas[..n]);
      var l := lineas[n];
      if LineaIgnorada(l) then previas
      else match ValidarUrl(Strip(l))
        case Ok(u) => (ValidarUrlIdempotente(Strip(l)); previas + [u])
        case Err(_) => previas
  }

  /** The warnings printed while reading: the 1-based number of every line that
      was neither blank nor a comment but failed validation, with the reason. */
  function Avisos(lineas: seq<string>): seq<(nat, ErrorUrl)>
    decreases |lineas|
  {
    if lineas == [] then []
    else
      var n := |lineas| - 1;
      var previos := Avisos(lineas[..n]);
      var l := lineas[n];
      if LineaIgnorada(l) then previos
      else match ValidarUrl(Strip(l))
        case Ok(_) => previos
        case Err(e) => previos + [(n + 1, e)]
  }

  /** The one error `leer_urls_de_archivo` raises once the file is read. */
  datatype ErrorLectura = SinUrlsValidas

  /** What `leer_urls_de_archivo` returns for a file with these lines. */
  function ParsearUrls(lineas: seq<string>): (r: Result<seq<string>, ErrorLectura>)
    ensures r.Err? <==> UrlsValidas(lineas) == []
    ensures r.Ok? ==> r.value == UrlsValidas(lineas)
  {
    var urls := UrlsValidas(lineas);
    if urls == [] then Err(SinUrlsValidas) else Ok(urls)
  }

  /** The line loop of `leer_urls_de_archivo`: the counter advances on every
      line, blank and comment lines are skipped, the rest are validated and
      kept in order or reported with their number. */
  method LeerUrlsDeArchivo(lineas: seq<string>) returns (r: Result<seq<string>, ErrorLectura>, avisos: seq<(nat, ErrorUrl)>)
    ensures r == ParsearUrls(lineas)
    ensures avisos == Avisos(lineas)
  {
    var urls: seq<string> := [];
    avisos := [];
    var lineaNum: nat := 0;
    while lineaNum < |lineas|
      invariant lineaNum <= |lineas|
      invariant urls == UrlsValidas(lineas[..lineaNum])
      invariant avisos == Avisos(lineas[..lineaNum])
    {
      assert lineas[..lineaNum + 1][..lineaNum] == lineas[..lineaNum];
      var linea := Strip(lineas[lineaNum]);
      lineaNum := lineaNum + 1;
      if linea == [] || linea[0] == '#' {
        continue;
      }
      var v := ValidarUrl(linea);
      if v.Ok? {
        urls := urls + [v.value];
      } else {
        avisos := avisos + [(lineaNum, v.error)];
      }
    }
    assert lineas[..|lineas|] == lineas;
    if urls == [] {
      r := Err(SinUrlsValidas);
    } else {
      r := Ok(urls);
    }
  }

  /** A line whose stripped text the reader keeps. */
  predicate LineaAceptada(l: string) {
    !LineaIgnorada(l) && ValidarUrl(Strip(l)).Ok?
  }

  /** One line contributes its stripped text when accepted, nothing otherwise. */
  lemma UrlsValidasLinea(l: string)
    ensures UrlsValidas([l]) == if LineaAceptada(l) then [Strip(l)] else []
  {
    assert [l][..0] == [];
    StripIdempotente(l);
  }

  /** Reading is a homomorphism over concatenation of files: the URLs of
      `a + b` are those of `a` followed by those of `b`, so input order is kept. */
  lemma {:induction false} UrlsValidasConcat(a: seq<string>, b: seq<string>)
    ensures UrlsValidas(a + b) == UrlsValidas(a) + UrlsValidas(b)
    decreases |b|
  {
    if b == [] {
      assert a + b == a;
    } else {
      var n := |b| - 1;
      assert (a + b)[..|a + b| - 1] == a + b[..n];
      assert (a + b)[|a + b| - 1] == b[n];
      UrlsValidasConcat(a, b[..n]);
    }
  }

  /** A URL is read exactly when some line, once stripped, is that URL and is
      accepted. */
  lemma {:induction false} UrlsValidasMiembro(lineas: seq<string>, x: string)
    ensures x in UrlsValidas(lineas) <==> exists i :: 0 <= i < |lineas| && LeidaComo(lineas[i], x)
    decreases |lineas|
  {
    if lineas != [] {
      var n := |lineas| - 1;
      var pre, l := lineas[..n], lineas[n];
      assert x in UrlsValidas(lineas) <==> x in UrlsValidas(pre) || LeidaComo(l, x) by {
        UrlsValidasUltima(lineas);
      }
      UrlsValidasMiembro(pre, x);
      ExisteEnLinea(lineas, x);
    }
  }

  /** The line `l` is accepted and reads as `x`. */
  predicate LeidaComo(l: string, x: string) {
    LineaAceptada(l) && Strip(l) == x
  }

  /** The last line contributes its stripped text when accepted. */
  lemma UrlsValidasUltima(lineas: seq<string>)
    requires lineas != []
    ensures var n := |lineas| - 1;
      UrlsValidas(lineas) == UrlsValidas(lineas[..n]) + (if LineaAceptada(lineas[n]) then [Strip(lineas[n])] else [])
  {
    StripIdempotente(lineas[|lineas| - 1]);
  }

  /** Some line reads as `x` exactly when one before the last does or the
      last one does. */
  lemma ExisteEnLinea(lineas: seq<string>, x: string)
    requires lineas != []
    ensures var n := |lineas| - 1;
      (exists i :: 0 <= i < |lineas| && LeidaComo(lineas[i], x))
      <==> (exists i :: 0 <= i < n && LeidaComo(lineas[..n][i], x)) || LeidaComo(lineas[n], x)
  {
    var n := |lineas| - 1;
    if exists i :: 0 <= i < |lineas| && LeidaComo(lineas[i], x) {
      var i :| 0 <= i < |lineas| && LeidaComo(lineas[i], x);
      if i < n {
        assert lineas[..n][i] == lineas[i];
      }
    }
    if exists i :: 0 <= i < n && LeidaComo(lineas[..n][i], x) {
      var i :| 0 <= i < n && LeidaComo(lineas[..n][i], x);
      assert lineas[i] == lineas[..n][i];
    }
  }

  /** Every warning names a line by its 1-based number, counting blank and
      comment lines too; that line was neither blank nor a comment and failed
      validation for the stated reason; numbers strictly increase. */
  lemma {:induction false} AvisosNumerados(lineas: seq<string>)
    ensures forall k :: 0 <= k < |Avisos(lineas)| ==>
      1 <= Avisos(lineas)[k].0 <= |lineas|
      && !LineaIgnorada(lineas[Avisos(lineas)[k].0 - 1])
      && ValidarUrl(Strip(lineas[Avisos(lineas)[k].0 - 1])) == Err(Avisos(lineas)[k].1)
    ensures forall k, m :: 0 <= k < m < |Avisos(lineas)| ==> Avisos(lineas)[k].0 < Avisos(lineas)[m].0
    decreases |lineas|
  {
    if lineas != [] {
      var n := |lineas| - 1;
      var pre := lineas[..n];
      AvisosNumerados(pre);
      forall k | 0 <= k < |Avisos(pre)|
        ensures lineas[Avisos(pre)[k].0 - 1] == pre[Avisos(pre)[k].0 - 1]
      {
      }
    }
  }

  /** Conversely, every line that is neither blank nor a comment and that
      validation rejects is warned about, with its 1-based number and the
      reason. */
  lemma {:induction false} AvisosCompletos(lineas: seq<string>, j: nat)
    requires j < |lineas| && !LineaIgnorada(lineas[j]) && ValidarUrl(Strip(lineas[j])).Err?
    ensures (j + 1, ValidarUrl(Strip(lineas[j])).error) in Avisos(lineas)
    decreases |lineas|
  {
    var n := |lineas| - 1;
    var pre := lineas[..n];
    if j < n {
      assert pre[j] == lineas[j];
      AvisosCompletos(pre, j);
    }
  }

  /** How each line of the sample file below is treated. */
  lemma LineasDelEjemplo()
    ensures LineaIgnorada("# c\n") && LineaIgnorada("\n")
    ensures LineaAceptada("https://y.tv/a\n") && Strip("https://y.tv/a\n") == "https://y.tv/a"
    ensures ValidarUrl(Strip("x.tv\n")) == Err(SinEsquema) && !LineaIgnorada("x.tv\n")
    ensures LineaAceptada("http://t.tv/b") && Strip("http://t.tv/b") == "http://t.tv/b"
  {
    ComentarioIgnorado("# c");
    assert LineaIgnorada("\n") by {
      assert "\n"[1..] == [];
      assert RecortarIzquierda("\n") == [];
    }
    assert "https://y.tv/a"[..8] == "https://";
    UrlAceptada("https://y.tv/a");
    assert "http://t.tv/b"[..7] == "http://";
    UrlAceptada("http://t.tv/b");
    SinEsquemaRechazada("x.tv");
  }

  /** A comment line, with or without its newline, is skipped. */
  lemma ComentarioIgnorado(c: string)
    requires c != [] && c[0] == '#' && !EsEspacio(c[|c| - 1])
    ensures LineaIgnorada(c + "\n")
  {
    StripDeRecortada(c);
    StripConSaltoFinal(c);
  }

  /** A URL without surrounding whitespace that validation accepts is kept,
      with or without its newline. */
  lemma UrlAceptada(u: string)
    requires u != [] && !EsEspacio(u[0]) && !EsEspacio(u[|u| - 1])
    requires TieneEsquema(u) && |u| >= LargoMinimo
    ensures LineaAceptada(u) && Strip(u) == u
    ensures LineaAceptada(u + "\n") && Strip(u + "\n") == u
  {
    StripDeRecortada(u);
    StripConSaltoFinal(u);
    assert u[0] == 'h';
  }

  /** A line without the scheme that is not a comment is rejected for that. */
  lemma SinEsquemaRechazada(w: string)
    requires w != [] && !EsEspacio(w[0]) && !EsEspacio(w[|w| - 1]) && w[0] != '#' && w[0] != 'h'
    ensures ValidarUrl(Strip(w + "\n")) == Err(SinEsquema) && !LineaIgnorada(w + "\n")
  {
    StripDeRecortada(w);
    StripConSaltoFinal(w);
    assert !TieneEsquema(w) by {
      assert "http://"[0] == 'h' && "https://"[0] == 'h';
    }
  }

  /** A file shaped like the sample below: skipped, skipped, kept, rejected,
      kept. */
  lemma {:induction false} CincoLineas(l1: string, l2: string, l3: string, l4: string, l5: string)
    requires LineaIgnorada(l1) && LineaIgnorada(l2) && LineaAceptada(l3) && LineaAceptada(l5)
    requires !LineaIgnorada(l4) && ValidarUrl(Strip(l4)) == Err(SinEsquema)
    ensures UrlsValidas([l1, l2, l3, l4, l5]) == [Strip(l3), Strip(l5)]
    ensures Avisos([l1, l2, l3, l4, l5]) == [(4, SinEsquema)]
  {
    AvisosCincoLineas(l1, l2, l3, l4, l5);
    var lineas := [l1, l2, l3, l4, l5];
    StripIdempotente(l3);
    StripIdempotente(l5);
    assert lineas[..4] == [l1, l2, l3, l4];
    assert [l1, l2, l3, l4][..3] == [l1, l2, l3];
    assert [l1, l2, l3][..2] == [l1, l2];
    assert [l1, l2][..1] == [l1];
    assert [l1][..0] == [];
    assert UrlsValidas([l1]) == [];
    assert UrlsValidas([l1, l2]) == [];
    assert UrlsValidas([l1, l2, l3]) == [Strip(l3)];
    assert UrlsValidas([l1, l2, l3, l4]) == [Strip(l3)];
  }

  lemma AvisosCincoLineas(l1: string, l2: string, l3: string, l4: string, l5: string)
    requires LineaIgnorada(l1) && LineaIgnorada(l2) && LineaAceptada(l3) && LineaAceptada(l5)
    requires !LineaIgnorada(l4) && ValidarUrl(Strip(l4)) == Err(SinEsquema)
    ensures Avisos([l1, l2, l3, l4, l5]) == [(4, SinEsquema)]
  {
    var lineas := [l1, l2, l3, l4, l5];
    assert lineas[..4] == [l1, l2, l3, l4];
    assert [l1, l2, l3, l4][..3] == [l1, l2, l3];
    assert [l1, l2, l3][..2] == [l1, l2];
    assert [l1, l2][..1] == [l1];
    assert [l1][..0] == [];
    assert Avisos([l1]) == [];
    assert Avisos([l1, l2]) == [];
    assert Avisos([l1, l2, l3]) == [];
    assert Avisos([l1, l2, l3, l4]) == [(4, SinEsquema)];
  }

  /** The sample file: a comment, a blank line, two URLs around a line that is
      not one. */
  lemma EjemploDeArchivo()
    ensures var lineas := ["# c\n", "\n", "https://y.tv/a\n", "x.tv\n", "http://t.tv/b"];
      ParsearUrls(lineas) == Ok(["https://y.tv/a", "http://t.tv/b"])
      && Avisos(lineas) == [(4, SinEsquema)]
  {
    LineasDelEjemplo();
    CincoLineas("# c\n", "\n", "https://y.tv/a\n", "x.tv\n", "http://t.tv/b");
  }

  // ------------------------------------------------- ejecutar_comando_ytdlp

  /** What `ejecutar_comando_ytdlp` does with an outcome: it returns a pair or
      lets the exception propagate. */
  datatype ResultadoEjecucion = Devuelve(exito: bool, salida: Option<string>) | Propaga

  /** `ejecutar_comando_ytdlp`: timeouts and non-zero exits become
      `(False, ...)`; a missing executable is not caught. */
  function EjecutarComando(o: Outcome, capturar: bool): (r: ResultadoEjecucion)
    ensures r == Propaga <==> o.FileNotFound?
    ensures r.Devuelve? ==> (r.exito <==> o.Success?)
    ensures o.Success? ==> r.salida == (if capturar then Some(o.stdout) else None)
    ensures o.Timeout? ==> r.salida == None
    ensures o.NonZeroExit? ==> r.salida == (if capturar then Some(o.stderr) else None)
  {
    match o
    case Success(out) => Devuelve(true, if capturar then Some(out) else None)
    case Timeout => Devuelve(false, None)
    case NonZeroExit(err) => Devuelve(false, if capturar then Some(err) else None)
    case FileNotFound => Propaga
  }

  /** The call itself: one invocation of the executor, then the mapping. */
  method EjecutarComandoYtdlp(comando: Command, capturar: bool, runner: Runner) returns (r: ResultadoEjecucion)
    modifies runner
    ensures runner.log == old(runner.log) + [comando]
    ensures r == EjecutarComando(runner.oracle(runner.log), capturar)
  {
    var o := runner.Run(comando);
    r := EjecutarComando(o, capturar);
  }
}
