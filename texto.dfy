/**
 * The handful of Python string operations the program relies on, restricted
 * to ASCII: `str.strip()`, `str.lower()`, `startswith`, the `in` substring
 * test, `split` on one character, and iteration over the lines of a text file.
 */
module Texto {

  /** Python's `str.isspace` on the ASCII range: space, \t \n \v \f \r and the
      four separators 0x1C..0x1F. */
  predicate EsEspacio(c: char) {
    c == ' ' || (9 <= c as int <= 13) || (28 <= c as int <= 31)
  }

  /** `s.lstrip()` */
  function RecortarIzquierda(s: string): string
    decreases |s|
  {
    if |s| > 0 && EsEspacio(s[0]) then RecortarIzquierda(s[1..]) else s
  }

  /** `s.rstrip()` */
  function RecortarDerecha(s: string): string
    decreases |s|
  {
    if |s| > 0 && EsEspacio(s[|s| - 1]) then RecortarDerecha(s[..|s| - 1]) else s
  }

  /** What `lstrip` leaves is a suffix that does not start with whitespace. */
  lemma {:induction false} RecortarIzquierdaSufijo(s: string)
    ensures |RecortarIzquierda(s)| <= |s| && RecortarIzquierda(s) == s[|s| - |RecortarIzquierda(s)|..]
    ensures RecortarIzquierda(s) == [] || !EsEspacio(RecortarIzquierda(s)[0])
    decreases |s|
  {
    if |s| > 0 && EsEspacio(s[0]) {
      RecortarIzquierdaSufijo(s[1..]);
    }
  }

  /** What `rstrip` leaves is a prefix that does not end with whitespace. */
  lemma {:induction false} RecortarDerechaPrefijo(s: string)
    ensures |RecortarDerecha(s)| <= |s| && RecortarDerecha(s) == s[..|RecortarDerecha(s)|]
    ensures RecortarDerecha(s) == [] || !EsEspacio(RecortarDerecha(s)[|RecortarDerecha(s)| - 1])
    decreases |s|
  {
    if |s| > 0 && EsEspacio(s[|s| - 1]) {
      RecortarDerechaPrefijo(s[..|s| - 1]);
    }
  }

  /** `s.strip()` */
  function Strip(s: string): string {
    RecortarDerecha(RecortarIzquierda(s))
  }

  /** A string with no whitespace at either end is its own strip. */
  lemma StripDeRecortada(s: string)
    requires s == [] || (!EsEspacio(s[0]) && !EsEspacio(s[|s| - 1]))
    ensures Strip(s) == s
  {
  }

  /** The stripped string has no whitespace at either end. */
  lemma {:induction false} StripSinBordes(s: string)
    ensures Strip(s) == [] || (!EsEspacio(Strip(s)[0]) && !EsEspacio(Strip(s)[|Strip(s)| - 1]))
  {
    var l := RecortarIzquierda(s);
    var r := RecortarDerecha(l);
    RecortarIzquierdaSufijo(s);
    RecortarDerechaPrefijo(l);
    if r != [] {
      assert r[0] == l[0];
    }
  }

  /** Stripping a string that starts with a visible character keeps that
      character in front. */
  lemma {:induction false} StripConservaPrimero(s: string)
    requires s != [] && !EsEspacio(s[0])
    ensures Strip(s) != [] && Strip(s)[0] == s[0]
  {
    assert RecortarIzquierda(s) == s;
    ConservaPrimero(s);
  }

  lemma {:induction false} ConservaPrimero(s: string)
    requires s != [] && !EsEspacio(s[0])
    ensures RecortarDerecha(s) != [] && RecortarDerecha(s)[0] == s[0]
    decreases |s|
  {
    if |s| > 1 && EsEspacio(s[|s| - 1]) {
      ConservaPrimero(s[..|s| - 1]);
    }
  }

  /** `strip` is idempotent. */
  lemma StripIdempotente(s: string)
    ensures Strip(Strip(s)) == Strip(s)
  {
    StripSinBordes(s);
    StripDeRecortada(Strip(s));
  }

  /** Appending a newline to a stripped, non-empty string is undone by strip. */
  lemma StripConSaltoFinal(s: string)
    requires s != [] && Strip(s) == s
    ensures Strip(s + "\n") == s
  {
    StripSinBordes(s);
    var t := s + "\n";
    assert RecortarIzquierda(t) == t;
    assert t[..|t| - 1] == s;
    assert RecortarDerecha(t) == RecortarDerecha(s);
    assert RecortarIzquierda(s) == s;
  }

  /** A line whose only newline, if any, is its last character strips to
      text with no newline at all. */
  lemma SinSaltoTrasStrip(l: string)
    requires l != [] && '\n' !in l[..|l| - 1]
    ensures '\n' !in Strip(l)
  {
    var a := RecortarIzquierda(l);
    var r := RecortarDerecha(a);
    RecortarIzquierdaSufijo(l);
    RecortarDerechaPrefijo(a);
    var off := |l| - |a|;
    forall p | 0 <= p < |r|
      ensures r[p] != '\n'
    {
      assert r[p] == a[p] == l[off + p];
      if off + p < |l| - 1 {
        assert l[..|l| - 1][off + p] == l[off + p];
      } else {
        assert p == |r| - 1;
      }
    }
  }

  /** `c.lower()` on ASCII letters. */
  function MinusculaChar(c: char): char {
    if 'A' <= c <= 'Z' then (c as int + 32) as char else c
  }

  /** `s.lower()`, ASCII letters only. The ensures only expose the
      definition to callers; its property is `LowerIdempotente`. */
  function Lower(s: string): (r: string)
    ensures |r| == |s|
    ensures forall i :: 0 <= i < |s| ==> r[i] == MinusculaChar(s[i])
  {
    seq(|s|, i requires 0 <= i < |s| => MinusculaChar(s[i]))
  }

  lemma LowerIdempotente(s: string)
    ensures Lower(Lower(s)) == Lower(s)
  {
  }

  predicate StartsWith(s: string, p: string) {
    |p| <= |s| && s[..|p|] == p
  }

  /** Python's `t in s`: `t` occurs in `s` as a contiguous block. */
  predicate Contains(s: string, t: string)
    decreases |s|
  {
    StartsWith(s, t) || (|s| > 0 && Contains(s[1..], t))
  }

  /** `t` occurs in `s` starting at position `i`. */
  predicate OcurreEn(s: string, t: string, i: int) {
    0 <= i <= |s| - |t| && s[i..i + |t|] == t
  }

  /** `Contains` holds exactly when `t` occurs at some position of `s`. */
  lemma {:induction false} ContainsEnPosicion(s: string, t: string)
    ensures Contains(s, t) <==> exists i :: OcurreEn(s, t, i)
    decreases |s|
  {
    if StartsWith(s, t) {
      assert OcurreEn(s, t, 0);
    } else if |s| > 0 {
      ContainsEnPosicion(s[1..], t);
      if Contains(s[1..], t) {
        var i :| OcurreEn(s[1..], t, i);
        assert s[i + 1..i + 1 + |t|] == s[1..][i..i + |t|];
        assert OcurreEn(s, t, i + 1);
      }
      if exists i :: OcurreEn(s, t, i) {
        var i :| OcurreEn(s, t, i);
        assert i != 0;
        assert s[1..][i - 1..i - 1 + |t|] == s[i..i + |t|];
        assert OcurreEn(s[1..], t, i - 1);
      }
    }
  }

  /** Index of the first `c` in `s`, or `|s|` when there is none. */
  function IndiceDe(s: string, c: char): (k: nat)
    ensures k <= |s|
    ensures k < |s| ==> s[k] == c
    ensures forall i :: 0 <= i < k ==> s[i] != c
    decreases |s|
  {
    if s == [] then 0 else if s[0] == c then 0 else 1 + IndiceDe(s[1..], c)
  }

  /** `s.split(c)[0]`: the text before the first `c`. */
  function AntesDe(s: string, c: char): (r: string)
    ensures StartsWith(s, r) && c !in r
    ensures |r| == |s| || s[|r|] == c
  {
    s[..IndiceDe(s, c)]
  }

  /** `s.split(c)[-1]`: the text after the last `c` (all of `s` if there is none). */
  function DespuesDelUltimo(s: string, c: char): (r: string)
    ensures |r| <= |s| && r == s[|s| - |r|..] && c !in r
    ensures |r| == |s| || s[|s| - |r| - 1] == c
    decreases |s|
  {
    if s == [] then []
    else if s[|s| - 1] == c then []
    else DespuesDelUltimo(s[..|s| - 1], c) + [s[|s| - 1]]
  }

  /** The lines Python yields when iterating over a text file: each keeps its
      terminating newline, the last one may lack it, and no empty line follows
      a final newline. */
  function Lineas(t: string): (r: seq<string>)
    ensures forall i :: 0 <= i < |r| ==> r[i] != [] && '\n' !in r[i][..|r[i]| - 1]
    ensures forall i :: 0 <= i < |r| - 1 ==> r[i][|r[i]| - 1] == '\n'
    decreases |t|
  {
    if t == [] then []
    else
      var k := IndiceDe(t, '\n');
      if k < |t| then [t[..k + 1]] + Lineas(t[k + 1..]) else [t]
  }

  /** The lines joined back together, in order. */
  function Unir(ls: seq<string>): string
    decreases |ls|
  {
    if ls == [] then [] else ls[0] + Unir(ls[1..])
  }

  /** Splitting into lines loses and repeats nothing: the lines join back to
      the text. */
  lemma {:induction false} LineasUnidas(t: string)
    ensures Unir(Lineas(t)) == t
    decreases |t|
  {
    if t != [] {
      var k := IndiceDe(t, '\n');
      if k < |t| {
        var resto := t[k + 1..];
        LineasUnidas(resto);
        UnirCabeza(t[..k + 1], Lineas(resto));
        assert t[..k + 1] + resto == t;
      } else {
        UnirCabeza(t, []);
        assert t + [] == t;
      }
    }
  }

  lemma UnirCabeza(x: string, ls: seq<string>)
    ensures Unir([x] + ls) == x + Unir(ls)
  {
    assert ([x] + ls)[1..] == ls;
  }

  /** A newline-terminated line at the front of a text is its first line. */
  lemma LineasDeLinea(l: string, t: string)
    requires l != [] && l[|l| - 1] == '\n' && '\n' !in l[..|l| - 1]
    ensures Lineas(l + t) == [l] + Lineas(t)
  {
    var s := l + t;
    var k := IndiceDe(s, '\n');
    assert s[|l| - 1] == '\n';
    assert k == |l| - 1;
    assert s[..k + 1] == l;
    assert s[k + 1..] == t;
  }

  function DigitoChar(d: nat): (c: char)
    requires d < 10
    ensures '0' <= c <= '9'
  {
    ('0' as int + d) as char
  }

  /** `str(n)` for a natural number. */
  function Decimal(n: nat): (r: string)
    ensures |r| > 0
    ensures forall i :: 0 <= i < |r| ==> '0' <= r[i] <= '9'
  {
    if n < 10 then [DigitoChar(n)] else Decimal(n / 10) + [DigitoChar(n % 10)]
  }

  /** `str(Path(dir) / nombre)`, treated as plain concatenation. */
  function UnirRuta(dir: string, nombre: string): string {
    dir + "/" + nombre
  }
}
