/**
 * The Facebook downloader of `facebook_descargador.py`: the URL cleaner and
 * the six download methods tried one after another.
 *
 * Every method calls the executor directly through `subprocess.run` with
 * `check=True`, catching only `CalledProcessError`, so a non-zero exit is a
 * failure and any other outcome but success raises out of the method; the
 * chain absorbs those exceptions and moves on.
 */
module Facebook {
  import opened Tipos
  import opened Texto
  import opened Proceso
  import opened Cadena
  import Videos

  // ------------------------------------------------------------ tracking parameters

  /** The keys of the pattern's alternation, in its order. */
  const ClavesRastreo: seq<string> := ["mibextid", "app", "source", "paipv"]

  /** Keys the cleaner can work with: none holds `&` or `=`, so a key
      followed by `=` never runs into the next parameter, and at most one key
      of the list opens any text. */
  predicate ClavesValidas(cs: seq<string>) {
    forall i :: 0 <= i < |cs| ==> '&' !in cs[i] && '=' !in cs[i]
  }

  /** `t` starts with the key `k` followed by `=`. */
  predicate Abre(t: string, k: string) {
    StartsWith(t, k + "=")
  }

  /** The length of `clave=` for the first key of `cs` that opens `t`. */
  function LargoClave(cs: seq<string>, t: string): (r: Option<nat>)
    ensures r.Some? ==> 0 < r.value <= |t| && t[r.value - 1] == '='
    decreases |cs|
  {
    if cs == [] then None
    else if Abre(t, cs[0]) then
      assert t[..|cs[0]| + 1][|cs[0]|] == '=';
      Some(|cs[0]| + 1)
    else LargoClave(cs[1..], t)
  }

  /** A key is found exactly when some key of the list opens the text. */
  lemma {:induction false} LargoClaveNinguna(cs: seq<string>, t: string)
    ensures LargoClave(cs, t).None? <==> forall i :: 0 <= i < |cs| ==> !Abre(t, cs[i])
    decreases |cs|
  {
    if cs != [] {
      LargoClaveNinguna(cs[1..], t);
      assert forall i :: 1 <= i < |cs| ==> cs[i] == cs[1..][i - 1];
    }
  }

  /** Two keys without `=` that open the same text are the same key. */
  lemma AbreUnica(t: string, k1: string, k2: string)
    requires '=' !in k1 && '=' !in k2 && Abre(t, k1) && Abre(t, k2)
    ensures k1 == k2
  {
    assert t[..|k1| + 1] == k1 + "=" && t[..|k2| + 1] == k2 + "=";
    assert forall j :: 0 <= j < |k1| ==> t[j] == k1[j];
    assert forall j :: 0 <= j < |k2| ==> t[j] == k2[j];
    assert t[|k1|] == '=' && t[|k2|] == '=';
    assert |k1| == |k2|;
    assert k1 == t[..|k1|] == k2;
  }

  /** The key found is the one that opens the text. */
  lemma {:induction false} LargoClaveDe(cs: seq<string>, t: string, k: string)
    requires ClavesValidas(cs) && k in cs && Abre(t, k)
    ensures LargoClave(cs, t) == Some(|k| + 1)
    decreases |cs|
  {
    if Abre(t, cs[0]) {
      AbreUnica(t, cs[0], k);
    } else {
      assert k in cs[1..];
      assert ClavesValidas(cs[1..]) by {
        assert forall i :: 0 <= i < |cs[1..]| ==> cs[1..][i] == cs[i + 1];
      }
      LargoClaveDe(cs[1..], t, k);
    }
  }

  /** The length of the tracking segment `[?&]clave=valor` at the head of
      `s`, if there is one: the value runs up to the next `&` or the end. */
  function Segmento(cs: seq<string>, s: string): (r: Option<nat>)
    ensures r.Some? <==> s != [] && (s[0] == '?' || s[0] == '&') && LargoClave(cs, s[1..]).Some?
    ensures r.Some? ==> 0 < r.value <= |s| && (r.value == |s| || s[r.value] == '&')
    ensures r.Some? ==>
      1 + LargoClave(cs, s[1..]).value <= r.value && '&' !in s[1 + LargoClave(cs, s[1..]).value..r.value]
  {
    if s != [] && (s[0] == '?' || s[0] == '&') then
      match LargoClave(cs, s[1..])
      case Some(n) => Some(1 + n + IndiceDe(s[1 + n..], '&'))
      case None => None
    else None
  }

  /** The substitution the cleaner performs: scanning left to right, every
      tracking segment is deleted and every other character is kept. */
  function QuitarRastreo(cs: seq<string>, s: string): string
    decreases |s|
  {
    if s == [] then []
    else match Segmento(cs, s)
      case Some(n) => QuitarRastreo(cs, s[n..])
      case None => [s[0]] + QuitarRastreo(cs, s[1..])
  }

  /** No tracking segment starts anywhere in `s`. */
  predicate SinRastreo(cs: seq<string>, s: string) {
    forall i :: 0 <= i < |s| ==> LibreEn(cs, s, i)
  }

  /** No tracking segment starts at position `i` of `s`. */
  predicate LibreEn(cs: seq<string>, s: string, i: nat)
    requires i <= |s|
  {
    Segmento(cs, s[i..]).None?
  }

  /** Text without tracking segments is left alone. */
  lemma {:induction false} SinRastreoIntacto(cs: seq<string>, s: string)
    requires SinRastreo(cs, s)
    ensures QuitarRastreo(cs, s) == s
    decreases |s|
  {
    if s != [] {
      SinRastreoCola(cs, s);
      SinRastreoIntacto(cs, s[1..]);
    }
  }

  /** Text without tracking segments has none at its head and none in its
      tail. */
  lemma SinRastreoCola(cs: seq<string>, s: string)
    requires s != [] && SinRastreo(cs, s)
    ensures Segmento(cs, s).None? && SinRastreo(cs, s[1..])
  {
    assert LibreEn(cs, s, 0) && s[0..] == s;
    forall i | 0 <= i < |s[1..]|
      ensures LibreEn(cs, s[1..], i)
    {
      assert LibreEn(cs, s, i + 1) && s[1..][i..] == s[i + 1..];
    }
  }

  /** Text with neither `?` nor `&` has no tracking segment. */
  lemma SinSeparadores(cs: seq<string>, s: string)
    requires '?' !in s && '&' !in s
    ensures SinRastreo(cs, s)
  {
    forall i | 0 <= i < |s|
      ensures LibreEn(cs, s, i)
    {
      assert s[i..][0] == s[i];
    }
  }

  /** What follows a deleted segment starts with `&` or is empty, and so does
      what is left of it. */
  lemma {:induction false} TrasSegmento(cs: seq<string>, t: string)
    ensures (t == [] || t[0] == '&') ==> (QuitarRastreo(cs, t) == [] || QuitarRastreo(cs, t)[0] == '&')
    decreases |t|
  {
    if t != [] {
      match Segmento(cs, t)
      case Some(n) => TrasSegmento(cs, t[n..]);
      case None =>
    }
  }

  /** A prefix free of `&` of the cleaned text was already a prefix of the
      text. */
  lemma {:induction false} PrefijoConservado(cs: seq<string>, t: string, w: string)
    requires w != [] && '&' !in w
    ensures StartsWith(QuitarRastreo(cs, t), w) ==> StartsWith(t, w)
    decreases |t|
  {
    if t != [] {
      match Segmento(cs, t)
      case Some(n) =>
        TrasSegmento(cs, t[n..]);
        assert w[0] != '&';
      case None =>
        var r := QuitarRastreo(cs, t[1..]);
        assert QuitarRastreo(cs, t) == [t[0]] + r;
        if |w| > 1 {
          assert '&' !in w[1..];
          PrefijoConservado(cs, t[1..], w[1..]);
          if StartsWith(QuitarRastreo(cs, t), w) {
            assert r[..|w| - 1] == w[1..];
            assert t[..|w|] == [t[0]] + t[1..][..|w| - 1];
          }
        }
    }
  }

  /** A valid key followed by `=` holds no `&`. */
  lemma ClaveSinAmpersand(cs: seq<string>, i: nat)
    requires ClavesValidas(cs) && i < |cs|
    ensures cs[i] + "=" != [] && '&' !in cs[i] + "="
  {
  }

  /** No tracking segment can start where one did not start before cleaning. */
  lemma SinClaveTrasLimpiar(cs: seq<string>, t: string)
    requires ClavesValidas(cs) && LargoClave(cs, t).None?
    ensures LargoClave(cs, QuitarRastreo(cs, t)).None?
  {
    LargoClaveNinguna(cs, t);
    LargoClaveNinguna(cs, QuitarRastreo(cs, t));
    forall i | 0 <= i < |cs|
      ensures !Abre(QuitarRastreo(cs, t), cs[i])
    {
      ClaveSinAmpersand(cs, i);
      PrefijoConservado(cs, t, cs[i] + "=");
    }
  }

  /** A single pass leaves no tracking segment behind: deleting a segment never
      joins the text around it into a new one. */
  lemma {:induction false} QuitarRastreoLimpia(cs: seq<string>, s: string)
    requires ClavesValidas(cs)
    ensures SinRastreo(cs, QuitarRastreo(cs, s))
    decreases |s|
  {
    if s != [] {
      match Segmento(cs, s)
      case Some(n) => QuitarRastreoLimpia(cs, s[n..]);
      case None =>
        var r := QuitarRastreo(cs, s[1..]);
        var q := [s[0]] + r;
        assert QuitarRastreo(cs, s) == q;
        QuitarRastreoLimpia(cs, s[1..]);
        if s[0] == '?' || s[0] == '&' {
          SinClaveTrasLimpiar(cs, s[1..]);
          assert q[1..] == r;
        }
        assert LibreEn(cs, q, 0) by {
          assert q[0..] == q;
        }
        forall i | 1 <= i < |q|
          ensures LibreEn(cs, q, i)
        {
          assert LibreEn(cs, r, i - 1) && q[i..] == r[i - 1..];
        }
    }
  }

  /** Cleaning is idempotent. */
  lemma QuitarRastreoIdempotente(cs: seq<string>, s: string)
    requires ClavesValidas(cs)
    ensures QuitarRastreo(cs, QuitarRastreo(cs, s)) == QuitarRastreo(cs, s)
  {
    QuitarRastreoLimpia(cs, s);
    SinRastreoIntacto(cs, QuitarRastreo(cs, s));
  }

  /** A `&`-free prefix test is unaffected by appending text that starts with
      `&`. */
  lemma PrefijoAnteAmpersand(x: string, b: string, w: string)
    requires '&' !in w && (b == [] || b[0] == '&')
    ensures StartsWith(x + b, w) <==> StartsWith(x, w)
  {
    if |w| <= |x| {
      assert (x + b)[..|w|] == x[..|w|];
    } else if b != [] && |w| <= |x + b| {
      assert (x + b)[|x|] == '&' && w[|x|] != '&';
    }
  }

  /** Whether a segment starts at the head of `x` does not depend on text
      starting with `&` that follows it. */
  lemma SegmentoAnteAmpersand(cs: seq<string>, x: string, b: string)
    requires ClavesValidas(cs) && x != [] && (b == [] || b[0] == '&')
    ensures Segmento(cs, x + b).None? <==> Segmento(cs, x).None?
  {
    assert (x + b)[1..] == x[1..] + b;
    LargoClaveNinguna(cs, x[1..]);
    LargoClaveNinguna(cs, x[1..] + b);
    forall i | 0 <= i < |cs|
      ensures Abre(x[1..] + b, cs[i]) <==> Abre(x[1..], cs[i])
    {
      ClaveSinAmpersand(cs, i);
      PrefijoAnteAmpersand(x[1..], b, cs[i] + "=");
    }
  }

  /** Text that holds no segment is kept as it is in front of the rest. */
  lemma {:induction false} TextoConservado(cs: seq<string>, a: string, b: string)
    requires ClavesValidas(cs) && SinRastreo(cs, a) && (b == [] || b[0] == '&')
    ensures QuitarRastreo(cs, a + b) == a + QuitarRastreo(cs, b)
    decreases |a|
  {
    if a != [] {
      SinRastreoCola(cs, a);
      TextoConservado(cs, a[1..], b);
      PrimeroConservado(cs, a, b);
    } else {
      assert a + b == b;
    }
  }

  /** The step of the above: the first character of clean text stays in
      front of what the rest of it and the text after become. */
  lemma PrimeroConservado(cs: seq<string>, a: string, b: string)
    requires ClavesValidas(cs) && a != [] && Segmento(cs, a).None? && (b == [] || b[0] == '&')
    requires QuitarRastreo(cs, a[1..] + b) == a[1..] + QuitarRastreo(cs, b)
    ensures QuitarRastreo(cs, a + b) == a + QuitarRastreo(cs, b)
  {
    assert Segmento(cs, a + b).None? by {
      SegmentoAnteAmpersand(cs, a, b);
    }
    QuitarRastreoCabeza(cs, a + b);
    DelanteDelResto(a, b);
    DelanteDelResto(a, QuitarRastreo(cs, b));
  }

  /** A non-empty text in front of another: its first character, then the
      rest of it followed by the other. */
  lemma DelanteDelResto(a: string, b: string)
    requires a != []
    ensures (a + b)[0] == a[0] && (a + b)[1..] == a[1..] + b
    ensures a + b == [a[0]] + (a[1..] + b)
  {
  }

  /** A character that starts no segment is kept. */
  lemma QuitarRastreoCabeza(cs: seq<string>, s: string)
    requires s != [] && Segmento(cs, s).None?
    ensures QuitarRastreo(cs, s) == [s[0]] + QuitarRastreo(cs, s[1..])
  {
  }

  /** The first `&` of a value free of `&` followed by `&` or nothing is the
      end of the value. */
  lemma PrimerAmpersand(valor: string, t: string)
    requires '&' !in valor && (t == [] || t[0] == '&')
    ensures IndiceDe(valor + t, '&') == |valor|
  {
    var x := valor + t;
    assert forall i :: 0 <= i < |valor| ==> x[i] == valor[i];
    assert t != [] ==> x[|valor|] == t[0];
  }

  /** The segment a key and a value make at the head of a text. */
  lemma SegmentoDe(cs: seq<string>, c: char, clave: string, valor: string, t: string)
    requires ClavesValidas(cs) && clave in cs
    requires c == '?' || c == '&'
    requires '&' !in valor && (t == [] || t[0] == '&')
    ensures Segmento(cs, [c] + clave + "=" + valor + t) == Some(|clave| + 2 + |valor|)
  {
    assert [c] + clave + "=" + valor + t == [c] + (clave + "=") + (valor + t);
    SegmentoEnCabeza(cs, c, clave, valor + t);
    PrimerAmpersand(valor, t);
  }

  /** A segment opened by a known key runs up to the first `&` after the
      key's `=`. */
  lemma SegmentoEnCabeza(cs: seq<string>, c: char, clave: string, q: string)
    requires ClavesValidas(cs) && clave in cs
    requires c == '?' || c == '&'
    ensures Segmento(cs, [c] + (clave + "=") + q) == Some(|clave| + 2 + IndiceDe(q, '&'))
  {
    var k := clave + "=";
    var s := [c] + k + q;
    assert s[1..] == k + q;
    assert Abre(s[1..], clave) by {
      assert (k + q)[..|k|] == k;
    }
    assert s[|clave| + 2..] == q;
    SegmentoAbierto(cs, s, clave, q);
  }

  lemma SegmentoAbierto(cs: seq<string>, s: string, clave: string, q: string)
    requires ClavesValidas(cs) && clave in cs
    requires s != [] && (s[0] == '?' || s[0] == '&') && Abre(s[1..], clave)
    requires |clave| + 2 <= |s| && s[|clave| + 2..] == q
    ensures Segmento(cs, s) == Some(|clave| + 2 + IndiceDe(q, '&'))
  {
    LargoClaveDe(cs, s[1..], clave);
  }

  /** A tracking segment is deleted: `?` or `&`, a key, `=`, and a value free
      of `&`, before the end or the next `&`. */
  lemma SegmentoQuitado(cs: seq<string>, c: char, clave: string, valor: string, t: string)
    requires ClavesValidas(cs) && clave in cs
    requires c == '?' || c == '&'
    requires '&' !in valor && (t == [] || t[0] == '&')
    ensures QuitarRastreo(cs, [c] + clave + "=" + valor + t) == QuitarRastreo(cs, t)
  {
    var s := [c] + clave + "=" + valor + t;
    SegmentoDe(cs, c, clave, valor, t);
    assert s[|clave| + 2 + |valor|..] == t;
  }

  /** Text that cleans away entirely, after a clean URL, leaves the URL. */
  lemma ColaQuitada(cs: seq<string>, u: string, b: string)
    requires ClavesValidas(cs) && SinRastreo(cs, u) && b != [] && b[0] == '&' && QuitarRastreo(cs, b) == []
    ensures QuitarRastreo(cs, u + b) == u
  {
    TextoConservado(cs, u, b);
    assert u + [] == u;
  }

  /** The query parameter `&clave=valor`. */
  function Parametro(clave: string, valor: string): string {
    "&" + clave + "=" + valor
  }

  /** Deleting a trailing tracking parameter from a clean URL gives the URL. */
  lemma ParametroFinalQuitado(cs: seq<string>, u: string, clave: string, valor: string)
    requires ClavesValidas(cs) && clave in cs
    requires SinRastreo(cs, u) && '&' !in valor
    ensures QuitarRastreo(cs, u + Parametro(clave, valor)) == u
  {
    var seg := Parametro(clave, valor);
    assert QuitarRastreo(cs, seg) == [] by {
      SegmentoQuitado(cs, '&', clave, valor, []);
      assert ['&'] + clave + "=" + valor + [] == seg;
    }
    ColaQuitada(cs, u, seg);
  }

  /** The four keys of the pattern are valid keys. */
  lemma ClavesRastreoValidas()
    ensures ClavesValidas(ClavesRastreo)
  {
  }

  // ------------------------------------------------------------ limpiar_url_facebook

  const PrefijoWatch: string := "https://www.facebook.com/watch/?v="
  /** The short-link domain the cleaner rewrites. */
  const DominioCorto: string := "fb.watch"
  const Esquema: string := "https://"

  /** `url.split('/')[-1].split('?')[0]`. */
  function IdVideo(u: string): (id: string)
    ensures '/' !in id && '?' !in id
  {
    AntesDe(DespuesDelUltimo(u, '/'), '?')
  }

  /** `limpiar_url_facebook` as written: a short link becomes a watch URL
      whose identifier holds neither `/` nor `?`; anything else comes out
      with its tracking parameters deleted and no others. */
  function LimpiarUrl(url: string): (r: string)
    ensures var c := QuitarRastreo(ClavesRastreo, url);
      if Contains(c, DominioCorto) then
        StartsWith(r, PrefijoWatch) && '/' !in r[|PrefijoWatch|..] && '?' !in r[|PrefijoWatch|..]
      else r == c && SinRastreo(ClavesRastreo, r)
  {
    ClavesRastreoValidas();
    QuitarRastreoLimpia(ClavesRastreo, url);
    var c := QuitarRastreo(ClavesRastreo, url);
    if Contains(c, DominioCorto) then PrefijoWatch + IdVideo(c) else c
  }

  /** A URL that holds no `fb.watch` once cleaned is cleaned only of its
      tracking segments, so cleaning it again changes nothing. */
  lemma LimpiarUrlSinDominio(u: string)
    requires !Contains(QuitarRastreo(ClavesRastreo, u), DominioCorto)
    ensures LimpiarUrl(LimpiarUrl(u)) == LimpiarUrl(u)
  {
    ClavesRastreoValidas();
    QuitarRastreoIdempotente(ClavesRastreo, u);
  }

  /** A watch URL is already canonical: cleaning it again changes nothing,
      for any identifier free of `?`, `&` and `fb.watch`. */
  lemma LimpiarUrlCanonica(id: string)
    requires '?' !in id && '&' !in id && !Contains(id, DominioCorto)
    ensures LimpiarUrl(PrefijoWatch + id) == PrefijoWatch + id
  {
    var u := PrefijoWatch + id;
    ClavesRastreoValidas();
    WatchSinRastreo(id);
    SinRastreoIntacto(ClavesRastreo, u);
    WatchSinDominioCorto(id);
  }

  /** The watch prefix in pieces, each ending in a character that
      `fb.watch` lacks, and the query `?v=` last. */
  lemma PiezasWatch()
    ensures PrefijoWatch == "https://" + "www.face" + "book.com" + "/watch/" + "?v="
  {
  }

  /** The pieces before the query hold no separator. */
  lemma PiezasSinSeparador()
    ensures '?' !in "https://" && '&' !in "https://"
    ensures '?' !in "www.face" && '&' !in "www.face"
    ensures '?' !in "book.com" && '&' !in "book.com"
    ensures '?' !in "/watch/" && '&' !in "/watch/"
  {
  }

  lemma Asociar(x: string, y: string, z: string)
    ensures (x + y) + z == x + (y + z)
  {
  }

  /** A watch URL holds no tracking segment: its one `?` opens `v=`, and no
      tracking key starts with `v`. */
  lemma WatchSinRastreo(id: string)
    requires '?' !in id && '&' !in id
    ensures SinRastreo(ClavesRastreo, PrefijoWatch + id)
  {
    var ruta := "https://" + "www.face" + "book.com" + "/watch/";
    PiezasWatch();
    PiezasSinSeparador();
    LibreEnPiezas("https://", "www.face", "book.com", "/watch/");
    Asociar(ruta, "?v=", id);
    assert forall i :: 0 <= i < |ClavesRastreo| ==> ClavesRastreo[i] != [] && ClavesRastreo[i][0] != 'v';
    ConsultaSinRastreo(ClavesRastreo, id);
    SinRastreoTrasLibre(ClavesRastreo, ruta, "?v=" + id);
  }

  /** Pieces free of separators make text free of them. */
  lemma LibreEnPiezas(a: string, b: string, c: string, d: string)
    requires '?' !in a && '&' !in a && '?' !in b && '&' !in b
    requires '?' !in c && '&' !in c && '?' !in d && '&' !in d
    ensures '?' !in a + b + c + d && '&' !in a + b + c + d
  {
  }

  /** `?v=` followed by text free of separators holds no segment when no key
      starts with `v`. */
  lemma ConsultaSinRastreo(cs: seq<string>, id: string)
    requires forall i :: 0 <= i < |cs| ==> cs[i] != [] && cs[i][0] != 'v'
    requires '?' !in id && '&' !in id
    ensures SinRastreo(cs, "?v=" + id)
  {
    var s := "?v=" + id;
    var t := s[1..];
    assert t == "v=" + id;
    assert '?' !in t && '&' !in t;
    SinSeparadores(cs, t);
    LargoClaveNinguna(cs, t);
    forall i | 0 <= i < |cs|
      ensures !Abre(t, cs[i])
    {
      assert (cs[i] + "=")[0] == cs[i][0];
    }
    assert LibreEn(cs, s, 0) by {
      assert s[0..] == s;
    }
    forall i | 1 <= i < |s|
      ensures LibreEn(cs, s, i)
    {
      assert LibreEn(cs, t, i - 1) && s[i..] == t[i - 1..];
    }
  }

  /** Text free of separators in front of clean text keeps it clean. */
  lemma SinRastreoTrasLibre(cs: seq<string>, a: string, b: string)
    requires '?' !in a && '&' !in a && SinRastreo(cs, b)
    ensures SinRastreo(cs, a + b)
  {
    var s := a + b;
    forall i | 0 <= i < |s|
      ensures LibreEn(cs, s, i)
    {
      if i < |a| {
        assert s[i..][0] == a[i];
      } else {
        assert LibreEn(cs, b, i - |a|) && s[i..] == b[i - |a|..];
      }
    }
  }

  /** A watch URL does not contain `fb.watch` when its identifier does not:
      no piece of the prefix holds it, and each piece ends in a character
      that `fb.watch` lacks. */
  lemma WatchSinDominioCorto(id: string)
    requires !Contains(id, DominioCorto)
    ensures !Contains(PrefijoWatch + id, DominioCorto)
  {
    var t := "fb.watch";
    assert DominioCorto == t;
    PiezasSinF();
    FinalesAjenos();
    WwwFaceSinDominio();
    PiezasWatch();
    SinEnPiezas("https://", "www.face", "book.com", "/watch/", "?v=", id, t);
  }

  /** Only the second piece of the watch prefix holds an `f`. */
  lemma PiezasSinF()
    ensures 'f' !in "https://" && 'f' !in "book.com" && 'f' !in "/watch/" && 'f' !in "?v="
  {
  }

  /** ... and its `f` comes too late to start `fb.watch`. */
  lemma WwwFaceSinDominio()
    ensures !Contains("www.face", "fb.watch")
  {
    var s, t := "www.face", "fb.watch";
    ContainsEnPosicion(s, t);
    forall i ensures !OcurreEn(s, t, i) {
      if 0 <= i <= |s| - |t| {
        assert i == 0;
        assert s[i..i + |t|][0] == 'w';
      }
    }
  }

  /** The last characters of the pieces do not occur in `fb.watch`. */
  lemma FinalesAjenos()
    ensures '/' !in "fb.watch" && 'e' !in "fb.watch" && 'm' !in "fb.watch" && '=' !in "fb.watch"
  {
  }

  /** Five pieces and a tail, none containing `t` (four of them lack even its
      first character) and each piece ending in a character `t` lacks: their
      concatenation does not contain `t`. */
  lemma SinEnPiezas(a: string, b: string, c: string, d: string, e: string, id: string, t: string)
    requires t != [] && t[0] !in a && !Contains(b, t) && t[0] !in c && t[0] !in d && t[0] !in e
    requires !Contains(id, t)
    requires a != [] && b != [] && c != [] && d != [] && e != []
    requires a[|a| - 1] !in t && b[|b| - 1] !in t && c[|c| - 1] !in t && d[|d| - 1] !in t && e[|e| - 1] !in t
    ensures !Contains(a + b + c + d + e + id, t)
  {
    SinInicial(a, t);
    SinInicial(c, t);
    SinInicial(d, t);
    SinInicial(e, t);
    NingunaJuntura(a, b, t);
    assert (a + b)[|a + b| - 1] == b[|b| - 1];
    NingunaJuntura(a + b, c, t);
    assert (a + b + c)[|a + b + c| - 1] == c[|c| - 1];
    NingunaJuntura(a + b + c, d, t);
    assert (a + b + c + d)[|a + b + c + d| - 1] == d[|d| - 1];
    NingunaJuntura(a + b + c + d, e, t);
    assert (a + b + c + d + e)[|a + b + c + d + e| - 1] == e[|e| - 1];
    NingunaJuntura(a + b + c + d + e, id, t);
  }

  /** Text without the first character of `t` does not contain `t`. */
  lemma SinInicial(a: string, t: string)
    requires t != [] && t[0] !in a
    ensures !Contains(a, t)
  {
    ContainsEnPosicion(a, t);
    forall i | 0 <= i <= |a| - |t|
      ensures !OcurreEn(a, t, i)
    {
      assert a[i..i + |t|][0] == a[i];
    }
  }

  /** No occurrence of `t` straddles `a` and `b` when `a` ends with a
      character that `t` lacks. */
  lemma NingunaJuntura(a: string, b: string, t: string)
    requires !Contains(a, t) && !Contains(b, t)
    requires a != [] && a[|a| - 1] !in t
    ensures !Contains(a + b, t)
  {
    var s := a + b;
    ContainsEnPosicion(a, t);
    ContainsEnPosicion(b, t);
    ContainsEnPosicion(s, t);
    forall i | 0 <= i <= |s| - |t|
      ensures !OcurreEn(s, t, i)
    {
      if i + |t| <= |a| {
        assert s[i..i + |t|] == a[i..i + |t|];
        assert !OcurreEn(a, t, i);
      } else if i >= |a| {
        assert s[i..i + |t|] == b[i - |a|..i - |a| + |t|];
        assert !OcurreEn(b, t, i - |a|);
      } else {
        var k := |a| - 1 - i;
        assert s[i..i + |t|][k] == a[|a| - 1];
        assert t[k] != a[|a| - 1];
      }
    }
  }

  /** The identifier is what follows the last `/` up to the first `?`. */
  lemma IdVideoUltimoSegmento(p: string, id: string, q: string)
    requires '/' !in id && '?' !in id && '/' !in q
    ensures (q == [] || q[0] == '?') ==> IdVideo(p + "/" + id + q) == id
  {
    if q == [] || q[0] == '?' {
      assert p + "/" + id + q == (p + "/") + (id + q);
      DespuesSinBarra(p + "/", id + q);
      AntesDeInterrogacion(id, q);
    }
  }

  /** A short link, once cleaned of tracking segments, becomes the watch URL
      for its last `/`-segment cut at the first `?`. */
  lemma LimpiarUrlUltimoSegmento(u: string, p: string, id: string, q: string)
    requires QuitarRastreo(ClavesRastreo, u) == p + "/" + id + q
    requires Contains(p + "/" + id + q, DominioCorto)
    requires '/' !in id && '?' !in id && '/' !in q && (q == [] || q[0] == '?')
    ensures LimpiarUrl(u) == PrefijoWatch + id
  {
    IdVideoUltimoSegmento(p, id, q);
  }

  /** Text free of `?` is all that `split('?')[0]` keeps when the end or a
      `?` follows it. */
  lemma AntesDeInterrogacion(id: string, q: string)
    requires '?' !in id && (q == [] || q[0] == '?')
    ensures AntesDe(id + q, '?') == id
  {
    var t := id + q;
    assert forall i :: 0 <= i < |id| ==> t[i] == id[i];
    assert q != [] ==> t[|id|] == q[0];
    assert IndiceDe(t, '?') == |id|;
  }

  /** After a `/`, text without one is all that `split('/')[-1]` keeps. */
  lemma {:induction false} DespuesSinBarra(p: string, t: string)
    requires p != [] && p[|p| - 1] == '/' && '/' !in t
    ensures DespuesDelUltimo(p + t, '/') == t
    decreases |t|
  {
    if t == [] {
      assert p + t == p;
    } else {
      var n := |t| - 1;
      assert (p + t)[..|p + t| - 1] == p + t[..n];
      assert (p + t)[|p + t| - 1] == t[n];
      DespuesSinBarra(p, t[..n]);
      assert t[..n] + [t[n]] == t;
    }
  }

  /** The short link `https://fb.watch/<id>/`, with the trailing slash the
      share dialog puts there. */
  function EnlaceCorto(id: string): string {
    Esquema + DominioCorto + "/" + id + "/"
  }

  /** Anything occurs in a text that has it in the middle. */
  lemma ContieneEnMedio(a: string, t: string, b: string)
    ensures Contains(a + t + b, t)
  {
    assert (a + t + b)[|a|..|a| + |t|] == t;
    assert OcurreEn(a + t + b, t, |a|);
    ContainsEnPosicion(a + t + b, t);
  }

  /** A short link carries no tracking segment and is recognised as one. */
  lemma EnlaceCortoReconocido(id: string)
    requires '/' !in id && '?' !in id && '&' !in id
    ensures QuitarRastreo(ClavesRastreo, EnlaceCorto(id)) == EnlaceCorto(id)
    ensures Contains(EnlaceCorto(id), DominioCorto)
  {
    var u := EnlaceCorto(id);
    assert QuitarRastreo(ClavesRastreo, u) == u by {
      assert '?' !in Esquema + DominioCorto && '&' !in Esquema + DominioCorto;
      assert '?' !in u && '&' !in u;
      SinSeparadores(ClavesRastreo, u);
      SinRastreoIntacto(ClavesRastreo, u);
    }
    assert Contains(u, DominioCorto) by {
      ContieneEnMedio(Esquema, DominioCorto, "/" + id + "/");
      assert u == Esquema + DominioCorto + ("/" + id + "/");
    }
  }

  /** A short link with a trailing slash, as written, loses its identifier:
      the rewrite yields a watch URL with an empty `v`. */
  lemma BarraFinalSinId(id: string)
    requires '/' !in id && '?' !in id && '&' !in id
    ensures LimpiarUrl(EnlaceCorto(id)) == PrefijoWatch
  {
    var u := EnlaceCorto(id);
    EnlaceCortoReconocido(id);
    assert u[|u| - 1] == '/';
    assert DespuesDelUltimo(u, '/') == [];
  }

  /** The text with any trailing slashes removed. */
  function SinBarrasFinales(s: string): (r: string)
    ensures StartsWith(s, r) && (r == [] || r[|r| - 1] != '/')
    ensures forall i :: |r| <= i < |s| ==> s[i] == '/'
    decreases |s|
  {
    if s != [] && s[|s| - 1] == '/' then SinBarrasFinales(s[..|s| - 1]) else s
  }

  /** The identifier the rewrite evidently wants: the last non-empty path
      segment, cut at the first `?`. */
  function IdVideoCorregido(u: string): (id: string)
    ensures '/' !in id && '?' !in id
  {
    IdVideo(SinBarrasFinales(u))
  }

  /** `limpiar_url_facebook` with the corrected identifier; it differs from
      the code as written only on links that end in `/`. */
  function LimpiarUrlCorregida(url: string): (r: string)
    ensures var c := QuitarRastreo(ClavesRastreo, url);
      if Contains(c, DominioCorto) then
        StartsWith(r, PrefijoWatch) && '/' !in r[|PrefijoWatch|..] && '?' !in r[|PrefijoWatch|..]
      else r == c && SinRastreo(ClavesRastreo, r)
    ensures var c := QuitarRastreo(ClavesRastreo, url);
      c == [] || c[|c| - 1] != '/' ==> r == LimpiarUrl(url)
  {
    ClavesRastreoValidas();
    QuitarRastreoLimpia(ClavesRastreo, url);
    var c := QuitarRastreo(ClavesRastreo, url);
    if Contains(c, DominioCorto) then PrefijoWatch + IdVideoCorregido(c) else c
  }

  /** The corrected identifier is the same with or without trailing slashes. */
  lemma IdCorregidoConBarra(p: string, id: string)
    requires id != [] && '/' !in id && '?' !in id
    ensures IdVideoCorregido(p + "/" + id + "/") == id
    ensures IdVideoCorregido(p + "/" + id) == id
  {
    var s := p + "/" + id;
    assert (s + "/")[..|s + "/"| - 1] == s;
    assert SinBarrasFinales(s + "/") == SinBarrasFinales(s);
    assert SinBarrasFinales(s) == s by {
      assert s[|s| - 1] == id[|id| - 1];
    }
    IdVideoUltimoSegmento(p, id, []);
    assert p + "/" + id + [] == s;
  }

  lemma IdCorregidoEnlace(id: string)
    requires id != [] && '/' !in id && '?' !in id
    ensures IdVideoCorregido(EnlaceCorto(id)) == id
  {
    IdCorregidoConBarra(Esquema + DominioCorto, id);
  }

  /** The corrected cleaner keeps the identifier of a short link with a
      trailing slash. */
  lemma BarraFinalConId(id: string)
    requires id != [] && '/' !in id && '?' !in id && '&' !in id
    ensures LimpiarUrlCorregida(EnlaceCorto(id)) == PrefijoWatch + id
  {
    EnlaceCortoReconocido(id);
    IdCorregidoEnlace(id);
  }

  // ------------------------------------------------------------ the six methods

  const AcceptLanguage: string := "Accept-Language:es-ES,es;q=0.9,en;q=0.8"
  const AcceptHtml: string := "Accept:text/html,application/xhtml+xml,application/xml;q=0.9,*/*;q=0.8"
  const Formato720: string := "bestvideo[height<=720]+bestaudio/best[height<=720]"

  function ComandoBasico(dir: string, url: string): Command {
    ["yt-dlp", "--format", "best", "--no-warnings", "-o", Videos.Salida(dir), url]
  }

  function ComandoHeaders(dir: string, url: string): Command {
    ["yt-dlp", "--user-agent", Videos.AgenteEscritorio, "--referer", Videos.RefererFacebook,
     "--add-header", AcceptLanguage, "--add-header", AcceptHtml,
     "--format", "best", "--no-check-certificate", "-o", Videos.Salida(dir), url]
  }

  function ComandoApi(dir: string, url: string): Command {
    ["yt-dlp", "--extractor-args", Videos.ApiFacebook, "--format", "best",
     "--http-chunk-size", "10M", "--retries", "15", "--fragment-retries", "15",
     "-o", Videos.Salida(dir), url]
  }

  /** The formats `metodo_4_formato_especifico` tries, in order. */
  const Formatos: seq<string> := [Formato720, "worst", "bestvideo+bestaudio", "mp4"]

  function ComandoFormato(dir: string, url: string, formato: string): Command {
    ["yt-dlp", "--format", formato, "--merge-output-format", "mp4", "-o", Videos.Salida(dir), url]
  }

  /** Method 4's commands, one per format. The ensures only expose the
      definition; what running them does is `Metodo4EnOrden`. */
  function ComandosFormatos(dir: string, url: string): (r: seq<Command>)
    ensures |r| == |Formatos|
    ensures forall i :: 0 <= i < |r| ==> r[i] == ComandoFormato(dir, url, Formatos[i])
  {
    seq(|Formatos|, i requires 0 <= i < |Formatos| => ComandoFormato(dir, url, Formatos[i]))
  }

  function ComandoCookies(dir: string, url: string, cookies: string): Command {
    ["yt-dlp", "--cookies", cookies, "--format", "best", "-o", Videos.Salida(dir), url]
  }

  function ComandoDirecto(url: string): Command {
    ["yt-dlp", "--get-url", "--format", "best", url]
  }

  /** One `subprocess.run(check=True)` guarded by `except CalledProcessError`. */
  function Simple(cmd: Command, ex: Oracle, h: seq<Command>): (r: (Paso, seq<Command>))
    ensures r.1 == h + [cmd]
    ensures r.0 == Devuelto(true) <==> ex(h + [cmd]).Success?
    ensures r.0 == Devuelto(false) <==> ex(h + [cmd]).NonZeroExit?
  {
    (Interpretar(PorSubprocessRun, ex(h + [cmd])), h + [cmd])
  }

  /** `metodo_4_formato_especifico`: the formats in order until one succeeds;
      a failure moves on, anything else raises out of the method. */
  function Metodo4(dir: string, url: string, ex: Oracle, h: seq<Command>): (Paso, seq<Command>) {
    var r := Intentar(PorSubprocessRun, ex, h, ComandosFormatos(dir, url));
    (PasoDe(r.0), r.1)
  }

  /** The guard of `metodo_5_cookies`: a cookie path is set, non-empty and
      exists (`existentes` stands for the files on disk). */
  predicate CookiesUsables(cookies: Option<string>, existentes: set<string>) {
    cookies.Some? && cookies.value != [] && cookies.value in existentes
  }

  /** `metodo_5_cookies`. */
  function Metodo5(dir: string, url: string, cookies: Option<string>, existentes: set<string>, ex: Oracle, h: seq<Command>): (r: (Paso, seq<Command>))
    ensures !CookiesUsables(cookies, existentes) ==> r == (Devuelto(false), h)
    ensures CookiesUsables(cookies, existentes) ==> r == Simple(ComandoCookies(dir, url, cookies.value), ex, h)
  {
    if cookies.None? || cookies.value == [] || cookies.value !in existentes then (Devuelto(false), h)
    else Simple(ComandoCookies(dir, url, cookies.value), ex, h)
  }

  /** `metodo_6_extraccion_directa`: success counts only when the stripped
      output is non-empty. */
  function Metodo6(url: string, ex: Oracle, h: seq<Command>): (r: (Paso, seq<Command>))
    ensures r.1 == h + [ComandoDirecto(url)]
    ensures var o := ex(h + [ComandoDirecto(url)]);
      (r.0 == Devuelto(true) <==> o.Success? && Strip(o.stdout) != [])
      && (r.0 == Lanzado <==> !o.Success? && !o.NonZeroExit?)
  {
    var log := h + [ComandoDirecto(url)];
    match ex(log)
    case Success(salida) => (Devuelto(Strip(salida) != []), log)
    case NonZeroExit(_) => (Devuelto(false), log)
    case _ => (Lanzado, log)
  }

  /** Format `j` of method 4, issued after `h` and the formats before it,
      exited with a non-zero status. */
  predicate FormatoFalla(dir: string, url: string, ex: Oracle, h: seq<Command>, j: nat)
    requires j < |Formatos|
  {
    ex(h + ComandosFormatos(dir, url)[..j + 1]).NonZeroExit?
  }

  /** `metodo_4` tries its formats in order: it returns `True` at the first
      that succeeds, `False` only after all four failed, and raises when a
      call neither succeeded nor failed; every format before the last one
      tried failed. */
  lemma Metodo4EnOrden(dir: string, url: string, ex: Oracle, h: seq<Command>)
    ensures var cmds := ComandosFormatos(dir, url);
      var r := Metodo4(dir, url, ex, h);
      exists k :: 1 <= k <= 4 && r.1 == h + cmds[..k]
        && (forall j :: 0 <= j < k - 1 ==> FormatoFalla(dir, url, ex, h, j))
        && (r.0 == Devuelto(true) <==> ex(r.1).Success?)
        && (r.0 == Devuelto(false) <==> k == 4 && ex(r.1).NonZeroExit?)
  {
    var cmds := ComandosFormatos(dir, url);
    IntentarCaracterizado(PorSubprocessRun, ex, h, cmds);
    IntentarPrefijo(PorSubprocessRun, ex, h, cmds);
    var a, log := Intentar(PorSubprocessRun, ex, h, cmds).0, Intentar(PorSubprocessRun, ex, h, cmds).1;
    var k :| 1 <= k <= |cmds| && log == h + cmds[..k]
      && (a.Ganado? <==> Interpretar(PorSubprocessRun, ex(log)) == Devuelto(true))
      && (forall j :: 0 <= j < k - 1 ==> Falla(PorSubprocessRun, ex, h, cmds, j))
      && (!a.Ganado? && k < |cmds| ==> Interpretar(PorSubprocessRun, ex(log)) == Lanzado);
    assert forall j :: 0 <= j < k - 1 ==> FormatoFalla(dir, url, ex, h, j) by {
      forall j | 0 <= j < k - 1
        ensures FormatoFalla(dir, url, ex, h, j)
      {
        assert Falla(PorSubprocessRun, ex, h, cmds, j);
      }
    }
    if a.Agotado? {
      assert log == h + cmds;
      assert cmds[..|cmds|] == cmds;
      assert Falla(PorSubprocessRun, ex, h, cmds, |cmds| - 1);
    }
  }

  /** When all four formats fail, all four are tried and the method returns
      `False`. */
  lemma Metodo4Agotado(dir: string, url: string, ex: Oracle, h: seq<Command>)
    requires forall j :: 0 <= j < |Formatos| ==> FormatoFalla(dir, url, ex, h, j)
    ensures Metodo4(dir, url, ex, h) == (Devuelto(false), h + ComandosFormatos(dir, url))
  {
    var cmds := ComandosFormatos(dir, url);
    assert forall j :: 0 <= j < |cmds| ==> Falla(PorSubprocessRun, ex, h, cmds, j) by {
      forall j | 0 <= j < |cmds|
        ensures Falla(PorSubprocessRun, ex, h, cmds, j)
      {
        assert FormatoFalla(dir, url, ex, h, j);
      }
    }
    IntentarAgota(PorSubprocessRun, ex, h, cmds);
  }

  // ------------------------------------------------------------ the chain

  datatype Metodo = Basico | Headers | Api | FormatosAlternativos | ConCookies | Directo

  /** The methods of `descargar_con_todos_los_metodos`, in the order tried. */
  const Metodos: seq<Metodo> := [Basico, Headers, Api, FormatosAlternativos, ConCookies, Directo]

  /** Everything a method depends on besides the history. */
  datatype Entorno = Entorno(dir: string, url: string, cookies: Option<string>, existentes: set<string>, ex: Oracle)

  function EjecutarMetodo(m: Metodo, e: Entorno, h: seq<Command>): (Paso, seq<Command>) {
    match m
    case Basico => Simple(ComandoBasico(e.dir, e.url), e.ex, h)
    case Headers => Simple(ComandoHeaders(e.dir, e.url), e.ex, h)
    case Api => Simple(ComandoApi(e.dir, e.url), e.ex, h)
    case FormatosAlternativos => Metodo4(e.dir, e.url, e.ex, h)
    case ConCookies => Metodo5(e.dir, e.url, e.cookies, e.existentes, e.ex, h)
    case Directo => Metodo6(e.url, e.ex, h)
  }

  /** A stage of the chain: the method at an index, run after a history. */
  type Etapa = (nat, seq<Command>) -> (Paso, seq<Command>)

  /** The six methods of an environment as stages. */
  function Etapas(e: Entorno): Etapa {
    (j: nat, h: seq<Command>) => if j < |Metodos| then EjecutarMetodo(Metodos[j], e, h) else (Lanzado, h)
  }

  /** The history after the first `j` stages ran, whatever they returned. */
  function Historia(f: Etapa, h0: seq<Command>, j: nat): seq<Command> {
    if j == 0 then h0 else f(j - 1, Historia(f, h0, j - 1)).1
  }

  /** What stage `j` gave when its turn came. */
  function PasoEn(f: Etapa, h0: seq<Command>, j: nat): Paso {
    f(j, Historia(f, h0, j)).0
  }

  /** The loop from stage `j` to the last of the `n` stages, with history
      `h`: the index of the stage that returned `True`, if any, and the
      history afterwards. */
  function Recorrer(f: Etapa, n: nat, j: nat, h: seq<Command>): (Option<nat>, seq<Command>)
    decreases n - j
  {
    if j >= n then (None, h)
    else
      var paso := f(j, h);
      if paso.0 == Devuelto(true) then (Some(j), paso.1) else Recorrer(f, n, j + 1, paso.1)
  }

  /** What the loop does from stage `j` on: when it stops at a stage, that
      stage returned `True`, none between `j` and it did, and nothing after
      it ran. */
  lemma {:induction false} RecorrerGana(f: Etapa, n: nat, h0: seq<Command>, j: nat)
    requires j <= n
    ensures var r := Recorrer(f, n, j, Historia(f, h0, j));
      r.0.Some? ==>
        j <= r.0.value < n && PasoEn(f, h0, r.0.value) == Devuelto(true)
        && (forall k :: j <= k < r.0.value ==> PasoEn(f, h0, k) != Devuelto(true))
        && r.1 == Historia(f, h0, r.0.value + 1)
    decreases n - j
  {
    if j < n {
      RecorrerGana(f, n, h0, j + 1);
    }
  }

  /** When the loop finds no stage returning `True` none did, and all ran;
      stages that return `False` or raise are passed over alike. */
  lemma {:induction false} RecorrerAgota(f: Etapa, n: nat, h0: seq<Command>, j: nat)
    requires j <= n
    ensures Recorrer(f, n, j, Historia(f, h0, j)).0.None? <==>
      forall k :: j <= k < n ==> PasoEn(f, h0, k) != Devuelto(true)
    ensures var r := Recorrer(f, n, j, Historia(f, h0, j));
      r.0.None? ==> r.1 == Historia(f, h0, n)
    decreases n - j
  {
    if j < n {
      var h := Historia(f, h0, j);
      assert f(j, h) == (PasoEn(f, h0, j), Historia(f, h0, j + 1));
      RecorrerAgota(f, n, h0, j + 1);
    }
  }

  /** `descargar_con_todos_los_metodos` after the URL is cleaned, over any
      `n` stages (the method table has six): `True` exactly at the first
      stage that returns `True`, with no later stage run; `False` only when
      every stage returned `False` or raised, after all of them ran. */
  lemma CadenaCompleta(f: Etapa, n: nat, h0: seq<Command>)
    ensures var r := Recorrer(f, n, 0, h0);
      (forall i :: 0 <= i < n ==>
        (r.0 == Some(i) <==>
          (PasoEn(f, h0, i) == Devuelto(true) && forall k :: 0 <= k < i ==> PasoEn(f, h0, k) != Devuelto(true))))
      && (r.0.Some? ==> r.1 == Historia(f, h0, r.0.value + 1))
      && (r.0.None? <==> forall k :: 0 <= k < n ==> PasoEn(f, h0, k) != Devuelto(true))
      && (r.0.None? ==> r.1 == Historia(f, h0, n))
  {
    var r := Recorrer(f, n, 0, h0);
    forall i | 0 <= i < n
      ensures r.0 == Some(i) <==>
        (PasoEn(f, h0, i) == Devuelto(true) && forall k :: 0 <= k < i ==> PasoEn(f, h0, k) != Devuelto(true))
    {
      PrimeraGanadora(f, n, h0, i);
    }
    DesdeElPrincipio(f, n, h0);
  }

  /** The loop run from the first stage on the starting history. */
  lemma DesdeElPrincipio(f: Etapa, n: nat, h0: seq<Command>)
    ensures var r := Recorrer(f, n, 0, h0);
      (r.0.Some? ==> r.1 == Historia(f, h0, r.0.value + 1))
      && (r.0.None? <==> forall k :: 0 <= k < n ==> PasoEn(f, h0, k) != Devuelto(true))
      && (r.0.None? ==> r.1 == Historia(f, h0, n))
  {
    assert Historia(f, h0, 0) == h0;
    RecorrerGana(f, n, h0, 0);
    RecorrerAgota(f, n, h0, 0);
  }

  /** The loop stops at stage `i` exactly when `i` is the first stage that
      returns `True`. */
  lemma PrimeraGanadora(f: Etapa, n: nat, h0: seq<Command>, i: nat)
    requires i < n
    ensures Recorrer(f, n, 0, h0).0 == Some(i) <==>
      (PasoEn(f, h0, i) == Devuelto(true) && forall k :: 0 <= k < i ==> PasoEn(f, h0, k) != Devuelto(true))
  {
    var g := Recorrer(f, n, 0, h0).0;
    assert Historia(f, h0, 0) == h0;
    RecorrerGana(f, n, h0, 0);
    RecorrerAgota(f, n, h0, 0);
    if g.Some? && g.value < i {
      assert PasoEn(f, h0, g.value) == Devuelto(true);
    }
  }

  /** Every command in `cmds` has `url` as its last argument. */
  predicate TerminanEn(cmds: seq<Command>, url: string) {
    forall i :: 0 <= i < |cmds| ==> cmds[i] != [] && cmds[i][|cmds[i]| - 1] == url
  }

  /** A method only appends to the history, and only commands aimed at the
      URL it was given. */
  lemma MetodoApuntaUrl(m: Metodo, e: Entorno, h: seq<Command>)
    ensures var log := EjecutarMetodo(m, e, h).1;
      |h| <= |log| && log[..|h|] == h && TerminanEn(log[|h|..], e.url)
  {
    var log := EjecutarMetodo(m, e, h).1;
    if m == FormatosAlternativos {
      var cmds := ComandosFormatos(e.dir, e.url);
      Metodo4EnOrden(e.dir, e.url, e.ex, h);
      var k :| 1 <= k <= 4 && log == h + cmds[..k];
      assert log[|h|..] == cmds[..k];
    } else {
      assert |log| == |h| || log == h + [log[|h|]];
    }
  }

  /** `log` is `h` followed by commands aimed at `url` only. */
  predicate Extiende(h: seq<Command>, log: seq<Command>, url: string) {
    |h| <= |log| && log[..|h|] == h && TerminanEn(log[|h|..], url)
  }

  /** Extending an extension is an extension. */
  lemma ExtiendeTransitiva(h0: seq<Command>, h: seq<Command>, log: seq<Command>, url: string)
    requires Extiende(h0, h, url) && Extiende(h, log, url)
    ensures Extiende(h0, log, url)
  {
    assert log[..|h0|] == h[..|h0|];
    assert log[|h0|..] == h[|h0|..] + log[|h|..];
  }

  /** Every stage of an environment extends the history it is given with
      commands aimed at the environment's URL. */
  lemma EtapasExtienden(e: Entorno)
    ensures forall j: nat, h :: j < |Metodos| ==> Extiende(h, Etapas(e)(j, h).1, e.url)
  {
    forall j: nat, h | j < |Metodos|
      ensures Extiende(h, Etapas(e)(j, h).1, e.url)
    {
      MetodoApuntaUrl(Metodos[j], e, h);
    }
  }

  /** Stages that each extend the history with commands aimed at `url` do so
      together, however many ran. */
  lemma {:induction false} HistoriaExtiende(f: Etapa, n: nat, h0: seq<Command>, url: string, j: nat)
    requires j <= n
    requires forall k: nat, h :: k < n ==> Extiende(h, f(k, h).1, url)
    ensures Extiende(h0, Historia(f, h0, j), url)
  {
    if j > 0 {
      var h := Historia(f, h0, j - 1);
      HistoriaExtiende(f, n, h0, url, j - 1);
      assert Extiende(h, f(j - 1, h).1, url);
      ExtiendeTransitiva(h0, h, f(j - 1, h).1, url);
    } else {
      assert h0[..|h0|] == h0 && h0[|h0|..] == [];
    }
  }

  /** The chain, however far it got, has issued only commands aimed at the
      URL of its environment. */
  lemma HistoriaApuntaUrl(e: Entorno, h0: seq<Command>, j: nat)
    requires j <= |Metodos|
    ensures var log := Historia(Etapas(e), h0, j);
      |h0| <= |log| && log[..|h0|] == h0 && TerminanEn(log[|h0|..], e.url)
  {
    EtapasExtienden(e);
    HistoriaExtiende(Etapas(e), |Metodos|, h0, e.url, j);
  }

  /** Wherever the loop stops, the history is that after some number of
      stages. */
  lemma RecorrerEsHistoria(f: Etapa, n: nat, h0: seq<Command>)
    ensures exists j :: 0 <= j <= n && Recorrer(f, n, 0, h0).1 == Historia(f, h0, j)
  {
    RecorrerGana(f, n, h0, 0);
    RecorrerAgota(f, n, h0, 0);
    var g := Recorrer(f, n, 0, h0).0;
    if g.Some? {
      assert Recorrer(f, n, 0, h0).1 == Historia(f, h0, g.value + 1);
    } else {
      assert Recorrer(f, n, 0, h0).1 == Historia(f, h0, n);
    }
  }

  /** Wherever the loop stops, every command it issued is aimed at the
      URL of its environment. */
  lemma RecorridoApuntaUrl(e: Entorno, h0: seq<Command>)
    ensures var log := Recorrer(Etapas(e), |Metodos|, 0, h0).1;
      |h0| <= |log| && log[..|h0|] == h0 && TerminanEn(log[|h0|..], e.url)
  {
    RecorrerEsHistoria(Etapas(e), |Metodos|, h0);
    var j :| 0 <= j <= |Metodos| && Recorrer(Etapas(e), |Metodos|, 0, h0).1 == Historia(Etapas(e), h0, j);
    HistoriaApuntaUrl(e, h0, j);
  }

  /** The cookie path the chain uses: asked for only when the answer, in
      lower case, is `s`. */
  function CookiesElegidas(respuesta: string, ruta: string): Option<string> {
    if Lower(respuesta) == "s" then Some(Strip(ruta)) else None
  }

  /** `descargar_con_todos_los_metodos` with the prompt answers and the files
      on disk passed in. */
  function Entrada(dir: string, url: string, respuesta: string, ruta: string, existentes: set<string>, ex: Oracle): Entorno {
    Entorno(dir, LimpiarUrl(url), CookiesElegidas(respuesta, ruta), existentes, ex)
  }

  // ------------------------------------------------------------ the class

  class DescargadorFacebook {
    var directorioDescargas: string

    /** The directory comes in already created. */
    constructor (directorio: string)
      ensures directorioDescargas == directorio
    {
      directorioDescargas := directorio;
    }

    /** One call guarded by `except CalledProcessError`. */
    method EjecutarSimple(comando: Command, runner: Runner) returns (p: Paso)
      modifies runner
      ensures (p, runner.log) == Simple(comando, runner.oracle, old(runner.log))
    {
      var o := runner.Run(comando);
      if o.Success? {
        return Devuelto(true);
      }
      if o.NonZeroExit? {
        return Devuelto(false);
      }
      return Lanzado;
    }

    method Metodo1Basico(url: string, runner: Runner) returns (p: Paso)
      modifies runner
      ensures (p, runner.log) == Simple(ComandoBasico(directorioDescargas, url), runner.oracle, old(runner.log))
    {
      var comando := ["yt-dlp", "--format", "best", "--no-warnings", "-o", Videos.Salida(directorioDescargas), url];
      p := EjecutarSimple(comando, runner);
    }

    method Metodo2ConHeaders(url: string, runner: Runner) returns (p: Paso)
      modifies runner
      ensures (p, runner.log) == Simple(ComandoHeaders(directorioDescargas, url), runner.oracle, old(runner.log))
    {
      var comando := ComandoHeaders(directorioDescargas, url);
      p := EjecutarSimple(comando, runner);
    }

    method Metodo3ApiVersion(url: string, runner: Runner) returns (p: Paso)
      modifies runner
      ensures (p, runner.log) == Simple(ComandoApi(directorioDescargas, url), runner.oracle, old(runner.log))
    {
      var comando := ComandoApi(directorioDescargas, url);
      p := EjecutarSimple(comando, runner);
    }

    /** The loop over the four formats: `continue` after a failure, early
        return on success, and any other outcome raised out of the method. */
    method Metodo4FormatoEspecifico(url: string, runner: Runner) returns (p: Paso)
      modifies runner
      ensures (p, runner.log) == Metodo4(directorioDescargas, url, runner.oracle, old(runner.log))
    {
      ghost var h0 := runner.log;
      ghost var cmds := ComandosFormatos(directorioDescargas, url);
      for i := 0 to |Formatos|
        invariant runner.log == h0 + cmds[..i]
        invariant forall j :: 0 <= j < i ==> Falla(PorSubprocessRun, runner.oracle, h0, cmds, j)
      {
        var comando := ComandoFormato(directorioDescargas, url, Formatos[i]);
        var o := runner.Run(comando);
        assert runner.log == h0 + cmds[..i + 1];
        if o.Success? {
          IntentarGana(PorSubprocessRun, runner.oracle, h0, cmds, i);
          return Devuelto(true);
        }
        if !o.NonZeroExit? {
          IntentarAborta(PorSubprocessRun, runner.oracle, h0, cmds, i);
          return Lanzado;
        }
      }
      assert cmds[..|Formatos|] == cmds;
      IntentarAgota(PorSubprocessRun, runner.oracle, h0, cmds);
      return Devuelto(false);
    }

    /** The guard, then one call with the cookie file. */
    method Metodo5Cookies(url: string, archivoCookies: Option<string>, existentes: set<string>, runner: Runner) returns (p: Paso)
      modifies runner
      ensures (p, runner.log) == Metodo5(directorioDescargas, url, archivoCookies, existentes, runner.oracle, old(runner.log))
    {
      if archivoCookies.None? || archivoCookies.value == [] || archivoCookies.value !in existentes {
        return Devuelto(false);
      }
      var comando := ComandoCookies(directorioDescargas, url, archivoCookies.value);
      p := EjecutarSimple(comando, runner);
    }

    method Metodo6ExtraccionDirecta(url: string, runner: Runner) returns (p: Paso)
      modifies runner
      ensures (p, runner.log) == Metodo6(url, runner.oracle, old(runner.log))
    {
      var comando := ["yt-dlp", "--get-url", "--format", "best", url];
      var o := runner.Run(comando);
      if o.Success? {
        var urlDirecta := Strip(o.stdout);
        if urlDirecta != [] {
          return Devuelto(true);
        }
        return Devuelto(false);
      }
      if o.NonZeroExit? {
        return Devuelto(false);
      }
      return Lanzado;
    }

    /** The lambda of the method table for method `m`. */
    method Ejecutar(m: Metodo, e: Entorno, runner: Runner) returns (p: Paso)
      requires e.dir == directorioDescargas && e.ex == runner.oracle
      modifies runner
      ensures (p, runner.log) == EjecutarMetodo(m, e, old(runner.log))
    {
      match m
      case Basico => p := Metodo1Basico(e.url, runner);
      case Headers => p := Metodo2ConHeaders(e.url, runner);
      case Api => p := Metodo3ApiVersion(e.url, runner);
      case FormatosAlternativos => p := Metodo4FormatoEspecifico(e.url, runner);
      case ConCookies => p := Metodo5Cookies(e.url, e.cookies, e.existentes, runner);
      case Directo => p := Metodo6ExtraccionDirecta(e.url, runner);
    }

    /** The loop over the method table: a method that raises is passed
        over like one that returns `False`. */
    method RecorrerMetodos(e: Entorno, runner: Runner) returns (ok: bool)
      requires e.dir == directorioDescargas && e.ex == runner.oracle
      modifies runner
      ensures var r := Recorrer(Etapas(e), |Metodos|, 0, old(runner.log));
        ok == r.0.Some? && runner.log == r.1
    {
      ghost var f := Etapas(e);
      ghost var total := Recorrer(f, |Metodos|, 0, runner.log);
      for i := 0 to |Metodos|
        invariant Recorrer(f, |Metodos|, i, runner.log) == total
      {
        ghost var h := runner.log;
        var p := Ejecutar(Metodos[i], e, runner);
        assert f(i, h) == (p, runner.log);
        if p == Devuelto(true) {
          return true;
        }
      }
      return false;
    }

    /** `descargar_con_todos_los_metodos`, with the two prompt answers and
        the files on disk passed in. */
    method DescargarConTodosLosMetodos(url: string, respuesta: string, ruta: string, existentes: set<string>, runner: Runner) returns (ok: bool)
      modifies runner
      ensures var r := Recorrer(Etapas(Entrada(directorioDescargas, url, respuesta, ruta, existentes, runner.oracle)), |Metodos|, 0, old(runner.log));
        ok == r.0.Some? && runner.log == r.1
    {
      var limpia := LimpiarUrl(url);
      var archivoCookies: Option<string> := None;
      if Lower(respuesta) == "s" {
        archivoCookies := Some(Strip(ruta));
      }
      var e := Entorno(directorioDescargas, limpia, archivoCookies, existentes, runner.oracle);
      assert e == Entrada(directorioDescargas, url, respuesta, ruta, existentes, runner.oracle);
      ok := RecorrerMetodos(e, runner);
    }
  }
}
