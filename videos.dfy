/**
 * The general downloader of `descargar_videos.py`: the option presets, the
 * command it builds for a URL, the fallbacks it tries after a failure, the
 * batch loop over a file of URLs and the text of the failed-URL file.
 *
 * The downloader's state is its download directory and its optional cookie
 * file. The executor is a `Runner`; each operation that runs commands has a
 * specification function over an oracle and a history of issued commands.
 */
module Videos {
  import opened Tipos
  import opened Texto
  import opened Proceso
  import opened Core
  import opened Cadena

  // ------------------------------------------------------------ options

  /** The output template yt-dlp fills with the title and extension. */
  const Plantilla: string := "%(title)s.%(ext)s"

  /** The output path passed after `-o`. */
  function Salida(dir: string): string {
    UnirRuta(dir, Plantilla)
  }

  /** `-o` is immediately followed by the output path for `dir`. */
  predicate SalidaEn(opts: seq<string>, dir: string) {
    exists k :: 0 <= k < |opts| - 1 && opts[k] == "-o" && opts[k + 1] == Salida(dir)
  }

  /** `--cookies` is immediately followed by `ruta`. */
  predicate CookiesEn(opts: seq<string>, ruta: string) {
    exists k :: 0 <= k < |opts| - 1 && opts[k] == "--cookies" && opts[k + 1] == ruta
  }

  /** Python truthiness of the cookie attribute: set and non-empty. */
  predicate CookiesConfiguradas(cookies: Option<string>) {
    cookies.Some? && cookies.value != []
  }

  /** The options every download starts with. */
  function OpcionesFijas(dir: string): (r: seq<string>)
    ensures SalidaEn(r, dir) && "--cookies" !in r
  {
    var r := ["--no-warnings", "--no-check-certificate", "--prefer-free-formats",
      "--add-metadata", "--embed-thumbnail", "--embed-subs",
      "--sub-langs", "es,en", "--convert-subs", "srt", "-o", Salida(dir)];
    assert r[10] == "-o" && r[11] == Salida(dir);
    r
  }

  /** The exception `obtener_opciones_base` raises: the module never imports
      `os`, so the name is unbound when the cookie test reaches it. */
  datatype ErrorNombre = NameError

  /** `obtener_opciones_base` as written. The `and` short-circuits, so with no
      cookie path the fixed options come back; with one the call to
      `os.path.exists` raises. */
  function OpcionesBase(dir: string, cookies: Option<string>): (r: Result<seq<string>, ErrorNombre>)
    ensures r.Err? <==> CookiesConfiguradas(cookies)
    ensures r.Ok? ==> SalidaEn(r.value, dir) && "--cookies" !in r.value
  {
    if CookiesConfiguradas(cookies) then Err(NameError) else Ok(OpcionesFijas(dir))
  }

  /** `obtener_opciones_base` with `os` imported: the cookie path is passed on
      exactly when it is set and the file exists (`existentes` stands for the
      files on disk). */
  function OpcionesBaseCorregidas(dir: string, cookies: Option<string>, existentes: set<string>): (r: seq<string>)
    ensures SalidaEn(r, dir)
    ensures "--cookies" in r <==> CookiesConfiguradas(cookies) && cookies.value in existentes
    ensures "--cookies" in r ==> CookiesEn(r, cookies.value)
  {
    var fijas := OpcionesFijas(dir);
    if CookiesConfiguradas(cookies) && cookies.value in existentes then
      var r := fijas + ["--cookies", cookies.value];
      assert r[|fijas|] == "--cookies" && r[|fijas| + 1] == cookies.value;
      assert SalidaEn(r, dir) by {
        var k :| 0 <= k < |fijas| - 1 && fijas[k] == "-o" && fijas[k + 1] == Salida(dir);
        assert r[k] == fijas[k] && r[k + 1] == fijas[k + 1];
      }
      r
    else fijas
  }

  /** The browser identities and extractor settings the presets pass. */
  const AgenteEscritorio: string := "Mozilla/5.0 (Windows NT 10.0; Win64; x64) AppleWebKit/537.36 (KHTML, like Gecko) Chrome/120.0.0.0 Safari/537.36"
  const AgenteIphone: string := "Mozilla/5.0 (iPhone; CPU iPhone OS 16_0 like Mac OS X) AppleWebKit/605.1.15"
  const ApiFacebook: string := "facebook:api_version=v13.0"
  const ApiTiktok: string := "tiktok:api_hostname=api16-normal-c-useast1a.tiktokv.com"
  const FormatoYoutube: string := "bestvideo[ext=mp4]+bestaudio[ext=m4a]/best[ext=mp4]/best"
  const RefererFacebook: string := "https://www.facebook.com/"

  function OpcionesFacebook(): seq<string> {
    ["--user-agent", AgenteEscritorio,
     "--referer", RefererFacebook,
     "--format", "best",
     "--http-chunk-size", "10M",
     "--retries", "10",
     "--fragment-retries", "10",
     "--extractor-args", ApiFacebook]
  }

  function OpcionesInstagram(): seq<string> {
    ["--format", "best", "--user-agent", AgenteIphone]
  }

  function OpcionesTiktok(): seq<string> {
    ["--format", "best", "--extractor-args", ApiTiktok]
  }

  function OpcionesYoutube(): seq<string> {
    ["--format", FormatoYoutube, "--merge-output-format", "mp4"]
  }

  /** The platform block of the first command: one preset for each of the
      four platforms with one, nothing for Twitter and the generic case. */
  function BloquePlataforma(p: Plataforma): (r: seq<string>)
    ensures r == [] <==> p == Twitter || p == Generico
  {
    match p
    case Facebook => OpcionesFacebook()
    case Instagram => OpcionesInstagram()
    case Tiktok => OpcionesTiktok()
    case Youtube => OpcionesYoutube()
    case Twitter => []
    case Generico => []
  }

  // ------------------------------------------------------------ commands

  /** The first command `descargar_video` issues. */
  function PrimerComando(base: seq<string>, p: Plataforma, url: string): Command {
    ["yt-dlp"] + base + BloquePlataforma(p) + [url]
  }

  /** The three format choices of `intentar_descarga_facebook_alternativa`,
      in the order they are tried. */
  const MetodosFacebook: seq<(string, Command)> := [
    ("Mejor calidad disponible", ["yt-dlp", "--format", "best"]),
    ("Calidad media", ["yt-dlp", "--format", "worst"]),
    ("HD 720p", ["yt-dlp", "--format", "bestvideo[height<=720]+bestaudio/best"])
  ]

  /** The command for one Facebook alternative. */
  function ComandoAlternativo(dir: string, url: string, i: nat): Command
    requires i < |MetodosFacebook|
  {
    MetodosFacebook[i].1 + ["-o", Salida(dir), url]
  }

  function AlternativasFacebook(dir: string, url: string): seq<Command> {
    [ComandoAlternativo(dir, url, 0), ComandoAlternativo(dir, url, 1), ComandoAlternativo(dir, url, 2)]
  }

  /** The simplified command of `intentar_descarga_genérica`. */
  function ReintentoGenerico(dir: string, url: string): Command {
    ["yt-dlp", "--format", "best", "-o", Salida(dir), url]
  }

  /** The fallbacks after a failed first command. */
  function Alternativas(dir: string, p: Plataforma, url: string): seq<Command> {
    if p == Facebook then AlternativasFacebook(dir, url) else [ReintentoGenerico(dir, url)]
  }

  /** Every command `descargar_video` may issue for a URL of platform `p`,
      in order. */
  function ComandosPara(dir: string, base: seq<string>, p: Plataforma, url: string): (r: seq<Command>)
    ensures |r| == if p == Facebook then 4 else 2
    ensures r[0] == PrimerComando(base, p, url)
  {
    [PrimerComando(base, p, url)] + Alternativas(dir, p, url)
  }

  function ComandosDescarga(dir: string, base: seq<string>, url: string): (r: seq<Command>)
    ensures |r| == if DetectarPlataforma(url) == Facebook then 4 else 2
    ensures r[0] == PrimerComando(base, DetectarPlataforma(url), url)
  {
    ComandosPara(dir, base, DetectarPlataforma(url), url)
  }

  // ------------------------------------------------------------ descargar_video

  /** `descargar_video` with the base options already evaluated: the result
      and the history afterwards. A rejected URL and an exception while
      building the options are caught and give `False` before any command;
      otherwise the commands run through `ejecutar_comando_ytdlp`, where a
      missing executable raises and the outer `except Exception` turns it
      into `False`. */
  function DescargaConOpciones(dir: string, base: Result<seq<string>, ErrorNombre>, ex: Oracle, h: seq<Command>, url: string): (bool, seq<Command>) {
    match ValidarUrl(url)
    case Err(_) => (false, h)
    case Ok(u) =>
      match base
      case Err(_) => (false, h)
      case Ok(b) =>
        var r := Intentar(PorEjecutarComando, ex, h, ComandosDescarga(dir, b, u));
        (r.0.Ganado?, r.1)
  }

  /** `descargar_video` as written. */
  function ResultadoDescarga(dir: string, cookies: Option<string>, ex: Oracle, h: seq<Command>, url: string): (bool, seq<Command>) {
    DescargaConOpciones(dir, OpcionesBase(dir, cookies), ex, h, url)
  }

  /** `descargar_video` with the corrected base options. */
  function ResultadoDescargaCorregida(dir: string, cookies: Option<string>, existentes: set<string>, ex: Oracle, h: seq<Command>, url: string): (bool, seq<Command>) {
    DescargaConOpciones(dir, Ok(OpcionesBaseCorregidas(dir, cookies, existentes)), ex, h, url)
  }

  /** For a valid URL and usable options the download is the run of its
      command list. */
  lemma DescargaValida(dir: string, base: seq<string>, ex: Oracle, h: seq<Command>, url: string)
    requires ValidarUrl(url).Ok?
    ensures var r := Intentar(PorEjecutarComando, ex, h, ComandosDescarga(dir, base, ValidarUrl(url).value));
      DescargaConOpciones(dir, Ok(base), ex, h, url) == (r.0.Ganado?, r.1)
  {
  }

  /** A rejected URL: `False`, and no command is issued. */
  lemma UrlInvalidaSinLlamadas(dir: string, cookies: Option<string>, ex: Oracle, h: seq<Command>, url: string)
    requires ValidarUrl(url).Err?
    ensures ResultadoDescarga(dir, cookies, ex, h, url) == (false, h)
  {
  }

  /** As written, a configured cookie path makes every download fail before
      any command is issued. */
  lemma CookiesImpidenDescarga(dir: string, ruta: string, ex: Oracle, h: seq<Command>, url: string)
    requires ruta != []
    ensures ResultadoDescarga(dir, Some(ruta), ex, h, url) == (false, h)
  {
    assert OpcionesBase(dir, Some(ruta)).Err?;
  }

  /** A full download attempt for a valid URL and usable options: the
      commands issued are a non-empty prefix of the first command and its
      fallbacks, run in order; each one before the last failed in the ordinary
      way; the download succeeded exactly when the last one did; and unless it
      succeeded or raised, the whole list ran. */
  lemma DescargaEnOrden(dir: string, base: seq<string>, ex: Oracle, h: seq<Command>, url: string)
    requires ValidarUrl(url).Ok?
    ensures var u := ValidarUrl(url).value;
      var cmds := ComandosDescarga(dir, base, u);
      var r := DescargaConOpciones(dir, Ok(base), ex, h, url);
      exists k :: 1 <= k <= |cmds| && r.1 == h + cmds[..k]
        && (r.0 <==> ex(r.1).Success?)
        && (forall j :: 0 <= j < k - 1 ==> Falla(PorEjecutarComando, ex, h, cmds, j))
        && (!r.0 && k < |cmds| ==> ex(r.1).FileNotFound?)
  {
    var u := ValidarUrl(url).value;
    DescargaValida(dir, base, ex, h, url);
    IntentarPrefijo(PorEjecutarComando, ex, h, ComandosDescarga(dir, base, u));
  }

  /** When the first command succeeds the download succeeds after exactly
      that one command. */
  lemma PrimerIntentoBasta(dir: string, base: seq<string>, ex: Oracle, h: seq<Command>, url: string)
    requires ValidarUrl(url).Ok?
    requires var u := ValidarUrl(url).value;
      ex(h + [PrimerComando(base, DetectarPlataforma(u), u)]).Success?
    ensures var u := ValidarUrl(url).value;
      DescargaConOpciones(dir, Ok(base), ex, h, url) == (true, h + [PrimerComando(base, DetectarPlataforma(u), u)])
  {
    var u := ValidarUrl(url).value;
    var cmds := ComandosDescarga(dir, base, u);
    assert cmds[..1] == [PrimerComando(base, DetectarPlataforma(u), u)];
    IntentarGana(PorEjecutarComando, ex, h, cmds, 0);
  }

  /** For a Facebook URL the fallbacks are `best`, `worst` and the 720p
      format, in that order, each writing to the output template. */
  lemma ComandosFacebook(dir: string, base: seq<string>, u: string)
    ensures var cmds := ComandosPara(dir, base, Facebook, u);
      cmds[1] == ["yt-dlp", "--format", "best", "-o", Salida(dir), u]
      && cmds[2] == ["yt-dlp", "--format", "worst", "-o", Salida(dir), u]
      && cmds[3] == ["yt-dlp", "--format", "bestvideo[height<=720]+bestaudio/best", "-o", Salida(dir), u]
  {
    var cmds := ComandosPara(dir, base, Facebook, u);
    assert cmds[1..] == AlternativasFacebook(dir, u);
  }

  /** A Facebook URL: at most four commands, those above in order after the
      first, and `True` exactly when the last one issued succeeded. */
  lemma CadenaFacebook(dir: string, base: seq<string>, ex: Oracle, h: seq<Command>, url: string)
    requires ValidarUrl(url).Ok? && DetectarPlataforma(ValidarUrl(url).value) == Facebook
    ensures var r := DescargaConOpciones(dir, Ok(base), ex, h, url);
      |h| < |r.1| <= |h| + 4 && r.1[..|h|] == h && (r.0 <==> ex(r.1).Success?)
      && r.1[|h|] == ComandosDescarga(dir, base, ValidarUrl(url).value)[0]
  {
    var u := ValidarUrl(url).value;
    DescargaValida(dir, base, ex, h, url);
    IntentarAcotado(PorEjecutarComando, ex, h, ComandosDescarga(dir, base, u));
  }

  /** For any other platform the one fallback is the simplified command. */
  lemma ComandosOtros(dir: string, base: seq<string>, p: Plataforma, u: string)
    requires p != Facebook
    ensures ComandosPara(dir, base, p, u)[1] == ["yt-dlp", "--format", "best", "-o", Salida(dir), u]
  {
  }

  /** Any other platform: at most two commands, and `True` exactly when the
      last one issued succeeded. */
  lemma ReintentoUnico(dir: string, base: seq<string>, ex: Oracle, h: seq<Command>, url: string)
    requires ValidarUrl(url).Ok? && DetectarPlataforma(ValidarUrl(url).value) != Facebook
    ensures var r := DescargaConOpciones(dir, Ok(base), ex, h, url);
      |h| < |r.1| <= |h| + 2 && r.1[..|h|] == h && (r.0 <==> ex(r.1).Success?)
      && r.1[|h|] == ComandosDescarga(dir, base, ValidarUrl(url).value)[0]
  {
    var u := ValidarUrl(url).value;
    DescargaValida(dir, base, ex, h, url);
    IntentarAcotado(PorEjecutarComando, ex, h, ComandosDescarga(dir, base, u));
  }

  /** Without a cookie path the options as written are usable, and every
      download starts with `yt-dlp`, the fixed options, the platform block
      and the stripped URL. */
  lemma PrimerComandoEmitido(dir: string, ex: Oracle, h: seq<Command>, url: string)
    requires ValidarUrl(url).Ok?
    ensures var u := ValidarUrl(url).value;
      var log := ResultadoDescarga(dir, None, ex, h, url).1;
      |log| > |h| && log[..|h|] == h
      && log[|h|] == ["yt-dlp"] + OpcionesFijas(dir) + BloquePlataforma(DetectarPlataforma(u)) + [u]
  {
    var u := ValidarUrl(url).value;
    DescargaValida(dir, OpcionesFijas(dir), ex, h, url);
    IntentarAcotado(PorEjecutarComando, ex, h, ComandosDescarga(dir, OpcionesFijas(dir), u));
  }

  /** Options passed `--cookies <path>` keep it in the first command. */
  lemma CookiesEnPrimerComando(base: seq<string>, p: Plataforma, u: string, ruta: string)
    requires CookiesEn(base, ruta)
    ensures CookiesEn(PrimerComando(base, p, u), ruta)
  {
    var k :| 0 <= k < |base| - 1 && base[k] == "--cookies" && base[k + 1] == ruta;
    var c := PrimerComando(base, p, u);
    assert c[k + 1] == base[k] && c[k + 2] == base[k + 1];
  }

  /** With `os` imported, a configured cookie file that exists reaches the
      first command as `--cookies <path>`. */
  lemma CorreccionEmiteCookies(dir: string, ruta: string, existentes: set<string>, ex: Oracle, h: seq<Command>, url: string)
    requires ruta != [] && ruta in existentes && ValidarUrl(url).Ok?
    ensures var log := ResultadoDescargaCorregida(dir, Some(ruta), existentes, ex, h, url).1;
      |log| > |h| && log[..|h|] == h && CookiesEn(log[|h|], ruta)
  {
    var base := OpcionesBaseCorregidas(dir, Some(ruta), existentes);
    var u := ValidarUrl(url).value;
    DescargaValida(dir, base, ex, h, url);
    IntentarAcotado(PorEjecutarComando, ex, h, ComandosDescarga(dir, base, u));
    CookiesEnPrimerComando(base, DetectarPlataforma(u), u, ruta);
  }

  // ------------------------------------------------------------ batch

  /** One download as the batch sees it: from the history before it, its
      result and the history after it. */
  type Descarga = (seq<Command>, string) -> (bool, seq<Command>)

  /** `descargar_video` with a directory, a cookie setting and an executor. */
  function Descargador(dir: string, cookies: Option<string>, ex: Oracle): Descarga {
    (h: seq<Command>, url: string) => ResultadoDescarga(dir, cookies, ex, h, url)
  }

  /** The per-URL results of downloading `urls` one after another with `d`,
      and the history afterwards. */
  function Resultados(d: Descarga, h: seq<Command>, urls: seq<string>): (r: (seq<bool>, seq<Command>))
    ensures |r.0| == |urls|
    decreases |urls|
  {
    if urls == [] then ([], h)
    else
      var n := |urls| - 1;
      var previos := Resultados(d, h, urls[..n]);
      var ultimo := d(previos.1, urls[n]);
      (previos.0 + [ultimo.0], ultimo.1)
  }

  /** The number of successes. */
  function Exitosos(oks: seq<bool>): (n: nat)
    ensures n <= |oks|
    decreases |oks|
  {
    if oks == [] then 0
    else Exitosos(oks[..|oks| - 1]) + (if oks[|oks| - 1] then 1 else 0)
  }

  /** The failures as the batch loop records them: 1-based position and URL. */
  function Fallidos(urls: seq<string>, oks: seq<bool>): seq<(nat, string)>
    requires |urls| == |oks|
    decreases |urls|
  {
    if urls == [] then []
    else
      var n := |urls| - 1;
      Fallidos(urls[..n], oks[..n]) + (if oks[n] then [] else [(n + 1, urls[n])])
  }

  /** One more URL: its download starts from the history the earlier ones
      left. */
  lemma ResultadosPaso(d: Descarga, h: seq<Command>, urls: seq<string>, i: nat)
    requires i < |urls|
    ensures var previos := Resultados(d, h, urls[..i]);
      var ultimo := d(previos.1, urls[i]);
      Resultados(d, h, urls[..i + 1]) == (previos.0 + [ultimo.0], ultimo.1)
  {
    assert urls[..i + 1][..i] == urls[..i];
  }

  /** One more result: a success adds to the count, a failure is recorded
      with its 1-based position. */
  lemma ConteoPaso(urls: seq<string>, oks: seq<bool>, ok: bool, i: nat)
    requires |oks| == i < |urls|
    ensures Exitosos(oks + [ok]) == Exitosos(oks) + (if ok then 1 else 0)
    ensures Fallidos(urls[..i + 1], oks + [ok]) == Fallidos(urls[..i], oks) + (if ok then [] else [(i + 1, urls[i])])
  {
    assert (oks + [ok])[..i] == oks;
    assert urls[..i + 1][..i] == urls[..i];
  }

  /** Processing is sequential over the input order: the downloads of
      `a + b` are those of `a`, then those of `b` starting from the history
      `a` left. */
  lemma {:induction false} ResultadosConcat(d: Descarga, h: seq<Command>, a: seq<string>, b: seq<string>)
    ensures var ra := Resultados(d, h, a);
      var rb := Resultados(d, ra.1, b);
      Resultados(d, h, a + b) == (ra.0 + rb.0, rb.1)
    decreases |b|
  {
    var ra := Resultados(d, h, a);
    if b == [] {
      assert a + b == a;
      assert ra.0 + [] == ra.0;
    } else {
      var n := |b| - 1;
      assert (a + b)[..|a + b| - 1] == a + b[..n];
      assert (a + b)[|a + b| - 1] == b[n];
      ResultadosConcat(d, h, a, b[..n]);
      var rb := Resultados(d, ra.1, b[..n]);
      var u := d(rb.1, b[n]);
      assert ra.0 + rb.0 + [u.0] == ra.0 + (rb.0 + [u.0]);
    }
  }

  /** Successes and failures add up to the number of URLs. */
  lemma {:induction false} ConteoCompleto(urls: seq<string>, oks: seq<bool>)
    requires |urls| == |oks|
    ensures Exitosos(oks) + |Fallidos(urls, oks)| == |urls|
    decreases |urls|
  {
    if urls != [] {
      ConteoCompleto(urls[..|urls| - 1], oks[..|oks| - 1]);
    }
  }

  /** Every failure names a 1-based position whose download failed and the
      URL at that position; positions strictly increase. */
  lemma {:induction false} FallidosOrdenados(urls: seq<string>, oks: seq<bool>)
    requires |urls| == |oks|
    ensures forall k {:trigger Fallidos(urls, oks)[k]} :: 0 <= k < |Fallidos(urls, oks)| ==>
      1 <= Fallidos(urls, oks)[k].0 <= |urls|
      && Fallidos(urls, oks)[k].1 == urls[Fallidos(urls, oks)[k].0 - 1]
      && !oks[Fallidos(urls, oks)[k].0 - 1]
    ensures forall k, m :: 0 <= k < m < |Fallidos(urls, oks)| ==> Fallidos(urls, oks)[k].0 < Fallidos(urls, oks)[m].0
    decreases |urls|
  {
    if urls != [] {
      var n := |urls| - 1;
      var pre := Fallidos(urls[..n], oks[..n]);
      FallidosOrdenados(urls[..n], oks[..n]);
      var f := Fallidos(urls, oks);
      assert f == pre + (if oks[n] then [] else [(n + 1, urls[n])]);
    }
  }

  /** Every failed download is recorded. */
  lemma {:induction false} FallidosCompletos(urls: seq<string>, oks: seq<bool>, i: nat)
    requires |urls| == |oks| && i < |urls| && !oks[i]
    ensures (i + 1, urls[i]) in Fallidos(urls, oks)
    decreases |urls|
  {
    var n := |urls| - 1;
    if i < n {
      FallidosCompletos(urls[..n], oks[..n], i);
    }
  }

  /** Three URLs, the middle one downloaded. */
  lemma EjemploDeLote(a: string, b: string, c: string)
    ensures Fallidos([a, b, c], [false, true, false]) == [(1, a), (3, c)]
    ensures Exitosos([false, true, false]) == 1
  {
    assert [a, b, c][..2] == [a, b] && [a, b][..1] == [a] && [a][..0] == [];
    assert [false, true, false][..2] == [false, true] && [false, true][..1] == [false] && [false][..0] == [];
    assert Fallidos([a], [false]) == [(1, a)];
    assert Fallidos([a, b], [false, true]) == [(1, a)];
    assert Exitosos([false, true]) == 1;
  }

  // ------------------------------------------------------------ failed-URL file

  const TituloFallidos: string := "# URLs que fallaron en la descarga"

  const Cabecera: string := TituloFallidos + "\n"

  function LineaTotal(n: nat): string {
    "# Total: " + Decimal(n) + "\n"
  }

  /** One line per failed URL, in order. */
  function CuerpoFallidos(f: seq<(nat, string)>): string
    decreases |f|
  {
    if f == [] then "" else f[0].1 + "\n" + CuerpoFallidos(f[1..])
  }

  /** The text `_guardar_urls_fallidas` writes. */
  function TextoFallidos(f: seq<(nat, string)>): string {
    Cabecera + LineaTotal(|f|) + "\n" + CuerpoFallidos(f)
  }

  /** The URLs of a failure list, in order. The ensures only expose the
      definition; the round trip it serves is `FallidosReleidos`. */
  function UrlsDe(f: seq<(nat, string)>): (r: seq<string>)
    ensures |r| == |f| && forall k :: 0 <= k < |f| ==> r[k] == f[k].1
  {
    seq(|f|, k requires 0 <= k < |f| => f[k].1)
  }

  /** A URL the reader already accepted and that sits on one line. */
  predicate UrlEscribible(u: string) {
    ValidarUrl(u) == Ok(u) && '\n' !in u
  }

  /** A one-line comment: starts with `#`, ends with its only newline. */
  predicate Comentario(l: string) {
    l != [] && l[0] == '#' && l[|l| - 1] == '\n' && '\n' !in l[..|l| - 1]
  }

  /** A comment line in front is read as one line ... */
  lemma ComentarioEnFrente(l: string, t: string)
    requires Comentario(l)
    ensures Lineas(l + t) == [l] + Lineas(t)
  {
    LineasDeLinea(l, t);
  }

  /** ... and contributes no URL. */
  lemma ComentarioSinUrl(l: string)
    requires Comentario(l)
    ensures UrlsValidas([l]) == []
  {
    StripConservaPrimero(l);
    UrlsValidasLinea(l);
  }

  /** A blank line contributes no URL. */
  lemma BlancaSinUrl()
    ensures UrlsValidas(["\n"]) == []
  {
    assert RecortarIzquierda("\n") == [];
    UrlsValidasLinea("\n");
  }

  /** A URL line in front is read as one line and contributes its URL. */
  lemma UrlReleida(u: string, t: string)
    requires UrlEscribible(u)
    ensures Lineas(u + "\n" + t) == [u + "\n"] + Lineas(t) && UrlsValidas([u + "\n"]) == [u]
  {
    var l := u + "\n";
    assert l[..|l| - 1] == u;
    assert u + "\n" + t == l + t;
    LineasDeLinea(l, t);
    StripConSaltoFinal(u);
    UrlsValidasLinea(l);
  }

  lemma CabeceraEsComentario()
    ensures Comentario(Cabecera)
  {
    assert Cabecera[..|Cabecera| - 1] == TituloFallidos;
  }

  lemma TotalEsComentario(n: nat)
    ensures Comentario(LineaTotal(n))
  {
    var l := LineaTotal(n);
    var d := Decimal(n);
    assert l[..|l| - 1] == "# Total: " + d;
    forall i | 0 <= i < |l| - 1
      ensures l[i] != '\n'
    {
      if i >= 9 {
        assert l[i] == d[i - 9];
      }
    }
  }

  /** Every URL of a failure list is writable, first to last. */
  predicate Escribibles(f: seq<(nat, string)>)
    decreases |f|
  {
    f == [] || (UrlEscribible(f[0].1) && Escribibles(f[1..]))
  }

  lemma {:induction false} EscribiblesDeTodas(f: seq<(nat, string)>)
    requires forall k :: 0 <= k < |f| ==> UrlEscribible(f[k].1)
    ensures Escribibles(f)
    decreases |f|
  {
    if f != [] {
      assert forall k :: 0 <= k < |f[1..]| ==> f[1..][k] == f[k + 1];
      EscribiblesDeTodas(f[1..]);
    }
  }

  /** The body reads back as its URLs. */
  lemma {:induction false} CuerpoReleido(f: seq<(nat, string)>)
    requires Escribibles(f)
    ensures UrlsValidas(Lineas(CuerpoFallidos(f))) == UrlsDe(f)
    decreases |f|
  {
    if f != [] {
      var u := f[0].1;
      var resto := CuerpoFallidos(f[1..]);
      var lr := Lineas(resto);
      assert Lineas(CuerpoFallidos(f)) == [u + "\n"] + lr && UrlsValidas([u + "\n"]) == [u] by {
        UrlReleida(u, resto);
      }
      assert UrlsValidas(lr) == UrlsDe(f[1..]) by {
        CuerpoReleido(f[1..]);
      }
      assert UrlsValidas([u + "\n"] + lr) == [u] + UrlsDe(f[1..]) by {
        UrlsValidasConcat([u + "\n"], lr);
      }
      assert UrlsDe(f) == [u] + UrlsDe(f[1..]);
    }
  }

  /** Two comment lines and a blank line in front of a text are read as three
      lines. */
  lemma LineasConCabecera(c1: string, c2: string, t: string)
    requires Comentario(c1) && Comentario(c2)
    ensures Lineas(c1 + c2 + "\n" + t) == [c1] + ([c2] + (["\n"] + Lineas(t)))
  {
    var t1 := "\n" + t;
    var t2 := c2 + t1;
    LineasDeLinea("\n", t);
    ComentarioEnFrente(c2, t1);
    ComentarioEnFrente(c1, t2);
    assert c1 + c2 + "\n" + t == c1 + t2;
  }

  /** ... and contribute no URL. */
  lemma UrlsConCabecera(c1: string, c2: string, ls: seq<string>)
    requires Comentario(c1) && Comentario(c2)
    ensures UrlsValidas([c1] + ([c2] + (["\n"] + ls))) == UrlsValidas(ls)
  {
    ComentarioSinUrl(c1);
    ComentarioSinUrl(c2);
    BlancaSinUrl();
    UrlsValidasConcat([c1], [c2] + (["\n"] + ls));
    UrlsValidasConcat([c2], ["\n"] + ls);
    UrlsValidasConcat(["\n"], ls);
  }

  /** Reading back the failed-URL file yields exactly the failed URLs, in
      order: both header lines are comments and the next line is blank. */
  lemma ReleerFallidos(f: seq<(nat, string)>)
    requires f != []
    requires forall k :: 0 <= k < |f| ==> UrlEscribible(f[k].1)
    ensures ParsearUrls(Lineas(TextoFallidos(f))) == Ok(UrlsDe(f))
  {
    var cuerpo := CuerpoFallidos(f);
    var l2 := LineaTotal(|f|);
    CabeceraEsComentario();
    TotalEsComentario(|f|);
    LineasConCabecera(Cabecera, l2, cuerpo);
    UrlsConCabecera(Cabecera, l2, Lineas(cuerpo));
    EscribiblesDeTodas(f);
    CuerpoReleido(f);
  }

  /** Every URL the reader gives from a text is writable: validation returns
      it unchanged and no line of the text can carry a newline into it. */
  lemma UrlsLeidasEscribibles(t: string)
    ensures forall x :: x in UrlsValidas(Lineas(t)) ==> UrlEscribible(x)
  {
    var ls := Lineas(t);
    forall x | x in UrlsValidas(ls)
      ensures UrlEscribible(x)
    {
      UrlsValidasMiembro(ls, x);
      var i :| 0 <= i < |ls| && LeidaComo(ls[i], x);
      SinSaltoTrasStrip(ls[i]);
      ValidarUrlIdempotente(Strip(ls[i]));
      StripIdempotente(ls[i]);
    }
  }

  /** The round trip end to end: the URLs read from a file, downloaded with
      some failures, are written to the failed-URL file, and reading that file
      back gives exactly the failed ones, in order. */
  lemma FallidosReleidos(t: string, oks: seq<bool>)
    requires |oks| == |UrlsValidas(Lineas(t))|
    requires Fallidos(UrlsValidas(Lineas(t)), oks) != []
    ensures var f := Fallidos(UrlsValidas(Lineas(t)), oks);
      ParsearUrls(Lineas(TextoFallidos(f))) == Ok(UrlsDe(f))
  {
    var urls := UrlsValidas(Lineas(t));
    var f := Fallidos(urls, oks);
    UrlsLeidasEscribibles(t);
    FallidosOrdenados(urls, oks);
    forall k | 0 <= k < |f|
      ensures UrlEscribible(f[k].1)
    {
      assert f[k].1 == urls[f[k].0 - 1];
      assert f[k].1 in urls;
    }
    ReleerFallidos(f);
  }

  // ------------------------------------------------------------ the class

  /** What `descargar_multiples` reports once the file is read. */
  datatype Informe = Informe(total: nat, exitosos: nat, fallidos: seq<(nat, string)>)

  class DescargadorVideos {
    var directorioDescargas: string
    var archivoCookies: Option<string>

    /** The directory comes in already created; no cookies at start. */
    constructor (directorio: string)
      ensures directorioDescargas == directorio && archivoCookies == None
    {
      directorioDescargas := directorio;
      archivoCookies := None;
    }

    method ObtenerOpcionesBase() returns (r: Result<seq<string>, ErrorNombre>)
      ensures r == OpcionesBase(directorioDescargas, archivoCookies)
    {
      var opciones := OpcionesFijas(directorioDescargas);
      if archivoCookies.Some? && archivoCookies.value != [] {
        // `os` is not bound in this module
        return Err(NameError);
      }
      return Ok(opciones);
    }

    /** `configurar_cookies_facebook` with the prompt answer and the outcome
        of `validar_archivo_cookies` on the stripped answer passed in: an
        empty answer leaves the setting alone, otherwise the validated path
        or `None` replaces it. */
    method ConfigurarCookiesFacebook(respuesta: string, validacion: Option<string>)
      modifies this
      ensures directorioDescargas == old(directorioDescargas)
      ensures archivoCookies == if Strip(respuesta) == [] then old(archivoCookies) else validacion
    {
      var ruta := Strip(respuesta);
      if ruta == [] {
        return;
      }
      archivoCookies := validacion;
    }

    /** `intentar_descarga_facebook_alternativa` for an already validated
        URL: the loop over the three formats with its early return. */
    method IntentarDescargaFacebookAlternativa(url: string, runner: Runner) returns (p: Paso)
      modifies runner
      ensures var r := Intentar(PorEjecutarComando, runner.oracle, old(runner.log), AlternativasFacebook(directorioDescargas, url));
        p == PasoDe(r.0) && runner.log == r.1
    {
      ghost var h0 := runner.log;
      var cmds := AlternativasFacebook(directorioDescargas, url);
      for i := 0 to 3
        invariant runner.log == h0 + cmds[..i]
        invariant forall j :: 0 <= j < i ==> Falla(PorEjecutarComando, runner.oracle, h0, cmds, j)
      {
        var comando := MetodosFacebook[i].1 + ["-o", Salida(directorioDescargas), url];
        assert comando == cmds[i];
        var r := EjecutarComandoYtdlp(comando, false, runner);
        assert runner.log == h0 + cmds[..i + 1];
        if r.Propaga? {
          IntentarAborta(PorEjecutarComando, runner.oracle, h0, cmds, i);
          return Lanzado;
        }
        if r.exito {
          IntentarGana(PorEjecutarComando, runner.oracle, h0, cmds, i);
          return Devuelto(true);
        }
      }
      assert cmds[..3] == cmds;
      IntentarAgota(PorEjecutarComando, runner.oracle, h0, cmds);
      return Devuelto(false);
    }

    /** `intentar_descarga_genérica`: the one simplified retry. */
    method IntentarDescargaGenerica(url: string, runner: Runner) returns (p: Paso)
      modifies runner
      ensures var r := Intentar(PorEjecutarComando, runner.oracle, old(runner.log), [ReintentoGenerico(directorioDescargas, url)]);
        p == PasoDe(r.0) && runner.log == r.1
    {
      var comando := ["yt-dlp", "--format", "best", "-o", Salida(directorioDescargas), url];
      var r := EjecutarComandoYtdlp(comando, false, runner);
      if r.Propaga? {
        return Lanzado;
      }
      return Devuelto(r.exito);
    }

    /** `descargar_video`. */
    method DescargarVideo(url: string, runner: Runner) returns (ok: bool)
      modifies runner
      ensures (ok, runner.log) == ResultadoDescarga(directorioDescargas, archivoCookies, runner.oracle, old(runner.log), url)
    {
      var v := ValidarUrl(url);
      if v.Err? {
        return false;
      }
      var base := ObtenerOpcionesBase();
      if base.Err? {
        return false;
      }
      ok := DescargarConOpciones(v.value, base.value, runner);
    }

    /** The body of `descargar_video` once the URL is validated and the
        options are built: the first command, then the fallbacks of the
        platform; the download succeeded exactly when one of the commands
        did. */
    method DescargarConOpciones(u: string, base: seq<string>, runner: Runner) returns (ok: bool)
      modifies runner
      ensures var r := Intentar(PorEjecutarComando, runner.oracle, old(runner.log), ComandosDescarga(directorioDescargas, base, u));
        ok == r.0.Ganado? && runner.log == r.1
    {
      ghost var h0 := runner.log;
      var plataforma := DetectarPlataforma(u);
      var comando := ["yt-dlp"] + base;
      comando := comando + BloquePlataforma(plataforma);
      comando := comando + [u];
      ghost var cmds := ComandosDescarga(directorioDescargas, base, u);
      assert cmds == [comando] + Alternativas(directorioDescargas, plataforma, u);
      var r := EjecutarComandoYtdlp(comando, false, runner);
      IntentarCabeza(PorEjecutarComando, runner.oracle, h0, comando, Alternativas(directorioDescargas, plataforma, u));
      if r.Propaga? {
        return false;
      }
      if r.exito {
        return true;
      }
      var paso: Paso;
      if plataforma == Facebook {
        paso := IntentarDescargaFacebookAlternativa(u, runner);
      } else {
        paso := IntentarDescargaGenerica(u, runner);
      }
      ok := paso == Devuelto(true);
    }

    /** One turn of the batch loop: the next URL, downloaded after the
        history the earlier ones left, extends the per-URL results by its
        own. */
    method DescargarSiguiente(urls: seq<string>, i: nat, ghost h0: seq<Command>, runner: Runner) returns (ok: bool)
      requires i < |urls|
      requires runner.log == Resultados(Descargador(directorioDescargas, archivoCookies, runner.oracle), h0, urls[..i]).1
      modifies runner
      ensures Resultados(Descargador(directorioDescargas, archivoCookies, runner.oracle), h0, urls[..i + 1])
        == (Resultados(Descargador(directorioDescargas, archivoCookies, runner.oracle), h0, urls[..i]).0 + [ok], runner.log)
    {
      ResultadosPaso(Descargador(directorioDescargas, archivoCookies, runner.oracle), h0, urls, i);
      ok := DescargarVideo(urls[i], runner);
    }

    /** The loop of `descargar_multiples`: every URL in order, counting the
        successes and recording each failure with its 1-based position. */
    method DescargarLote(urls: seq<string>, runner: Runner) returns (exitosos: nat, fallidos: seq<(nat, string)>, ghost oks: seq<bool>)
      modifies runner
      ensures oks == Resultados(Descargador(directorioDescargas, archivoCookies, runner.oracle), old(runner.log), urls).0
      ensures runner.log == Resultados(Descargador(directorioDescargas, archivoCookies, runner.oracle), old(runner.log), urls).1
      ensures exitosos == Exitosos(oks) && fallidos == Fallidos(urls, oks)
    {
      exitosos := 0;
      fallidos := [];
      ghost var h0 := runner.log;
      oks := [];
      var i := 0;
      while i < |urls|
        invariant 0 <= i <= |urls| && |oks| == i
        invariant oks == Resultados(Descargador(directorioDescargas, archivoCookies, runner.oracle), h0, urls[..i]).0
        invariant runner.log == Resultados(Descargador(directorioDescargas, archivoCookies, runner.oracle), h0, urls[..i]).1
        invariant exitosos == Exitosos(oks) && fallidos == Fallidos(urls[..i], oks)
      {
        var ok := DescargarSiguiente(urls, i, h0, runner);
        ConteoPaso(urls, oks, ok, i);
        if ok {
          exitosos := exitosos + 1;
        } else {
          fallidos := fallidos + [(i + 1, urls[i])];
        }
        oks := oks + [ok];
        i := i + 1;
      }
      assert urls[..|urls|] == urls;
    }

    /** `descargar_multiples` on the lines of the URL file, with the answer to
        the save prompt passed in: the report, and the text written to the
        failed-URL file when there were failures and the answer was yes. A
        file without valid URLs gives its error and runs nothing. */
    method DescargarMultiples(lineas: seq<string>, confirmar: bool, runner: Runner) returns (informe: Result<Informe, ErrorLectura>, guardado: Option<string>)
      modifies runner
      ensures var p := ParsearUrls(lineas);
        p.Err? ==> informe == Err(p.error) && guardado == None && runner.log == old(runner.log)
      ensures var p := ParsearUrls(lineas);
        p.Ok? ==>
          var r := Resultados(Descargador(directorioDescargas, archivoCookies, runner.oracle), old(runner.log), p.value);
          var f := Fallidos(p.value, r.0);
          informe == Ok(Informe(|p.value|, Exitosos(r.0), f)) && runner.log == r.1
          && guardado == (if f != [] && confirmar then Some(TextoFallidos(f)) else None)
    {
      var lectura, _ := LeerUrlsDeArchivo(lineas);
      if lectura.Err? {
        return Err(lectura.error), None;
      }
      var urls := lectura.value;
      var total := |urls|;
      var exitosos, fallidos, oks := DescargarLote(urls, runner);
      informe := Ok(Informe(total, exitosos, fallidos));
      guardado := None;
      if fallidos != [] && confirmar {
        guardado := Some(TextoFallidos(fallidos));
      }
    }
  }
}
