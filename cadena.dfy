/**
 * The pattern the program repeats wherever it has alternatives: run a fixed
 * list of commands one after another, stop at the first that succeeds, move
 * on after an ordinary failure, and give up at once when the call raises.
 * `descargar_video` with its fallbacks, `intentar_descarga_facebook_alternativa`
 * and the format loop of `metodo_4_formato_especifico` are all instances.
 */
module Cadena {
  import opened Core
  import opened Proceso

  /** What the caller of one invocation (or of a whole method) sees: a
      returned boolean, or an exception on its way up. */
  datatype Paso = Devuelto(valor: bool) | Lanzado

  /** The two ways the program calls the executor: through
      `ejecutar_comando_ytdlp` (timeouts and non-zero exits are failures, a
      missing executable raises), or through `subprocess.run(check=True)`
      guarded only by `except CalledProcessError` (so a non-zero exit is a
      failure and anything else raises). */
  datatype Via = PorEjecutarComando | PorSubprocessRun

  function Interpretar(via: Via, o: Outcome): (p: Paso)
    ensures p == Devuelto(true) <==> o.Success?
    ensures via == PorEjecutarComando ==> (p == Lanzado <==> o.FileNotFound?)
    ensures via == PorSubprocessRun ==> (p == Devuelto(false) <==> o.NonZeroExit?)
  {
    match via
    case PorEjecutarComando =>
      (match EjecutarComando(o, false)
       case Devuelve(exito, _) => Devuelto(exito)
       case Propaga => Lanzado)
    case PorSubprocessRun =>
      (match o
       case Success(_) => Devuelto(true)
       case NonZeroExit(_) => Devuelto(false)
       case _ => Lanzado)
  }

  /** How a run of a command list ends: the command at `indice` succeeded,
      all failed, or the command at `indice` raised. */
  datatype Intento = Ganado(indice: nat) | Agotado | Abortado(indice: nat)

  /** The command at position `j` of `cmds`, issued after `h` and the commands
      before it, failed in the ordinary way. */
  predicate Falla(via: Via, ex: Oracle, h: seq<Command>, cmds: seq<Command>, j: nat)
    requires j < |cmds|
  {
    Interpretar(via, ex(h + cmds[..j + 1])) == Devuelto(false)
  }

  /** What the caller of a whole run sees. */
  function PasoDe(a: Intento): Paso {
    match a
    case Ganado(_) => Devuelto(true)
    case Agotado => Devuelto(false)
    case Abortado(_) => Lanzado
  }

  /** Run `cmds` in order after history `h`; the second component is the
      history afterwards. */
  function Intentar(via: Via, ex: Oracle, h: seq<Command>, cmds: seq<Command>): (Intento, seq<Command>)
    decreases |cmds|
  {
    if cmds == [] then (Agotado, h)
    else
      var h1 := h + [cmds[0]];
      match Interpretar(via, ex(h1))
      case Devuelto(true) => (Ganado(0), h1)
      case Lanzado => (Abortado(0), h1)
      case Devuelto(false) =>
        var resto := Intentar(via, ex, h1, cmds[1..]);
        (Desplazado(resto.0), resto.1)
  }

  /** The outcome of the rest of a list, seen from the whole list: positions
      move up by one. */
  function Desplazado(a: Intento): Intento {
    match a
    case Ganado(i) => Ganado(i + 1)
    case Agotado => Agotado
    case Abortado(i) => Abortado(i + 1)
  }

  /** What a run does: the commands issued are a prefix of `cmds`, issued in
      order after `h`; the prefix ends at the first success or the first
      exception, or takes in the whole list when every command failed; every
      command before the last one issued failed. */
  predicate Caracterizado(via: Via, ex: Oracle, h: seq<Command>, cmds: seq<Command>, r: (Intento, seq<Command>)) {
    match r.0
    case Ganado(i) =>
      i < |cmds| && r.1 == h + cmds[..i + 1] && Interpretar(via, ex(r.1)) == Devuelto(true)
      && forall j :: 0 <= j < i ==> Falla(via, ex, h, cmds, j)
    case Agotado =>
      r.1 == h + cmds && forall j :: 0 <= j < |cmds| ==> Falla(via, ex, h, cmds, j)
    case Abortado(i) =>
      i < |cmds| && r.1 == h + cmds[..i + 1] && Interpretar(via, ex(r.1)) == Lanzado
      && forall j :: 0 <= j < i ==> Falla(via, ex, h, cmds, j)
  }

  lemma {:induction false} IntentarCaracterizado(via: Via, ex: Oracle, h: seq<Command>, cmds: seq<Command>)
    ensures Caracterizado(via, ex, h, cmds, Intentar(via, ex, h, cmds))
    decreases |cmds|
  {
    if cmds != [] {
      var h1 := h + [cmds[0]];
      assert h1 == h + cmds[..1];
      if Interpretar(via, ex(h1)) == Devuelto(false) {
        IntentarCaracterizado(via, ex, h1, cmds[1..]);
        CaracterizadoTrasFalla(via, ex, h, cmds, Intentar(via, ex, h1, cmds[1..]));
      }
    }
  }

  /** The step of the above: a characterised run of the rest of a list,
      after its first command failed, characterises the whole list. */
  lemma CaracterizadoTrasFalla(via: Via, ex: Oracle, h: seq<Command>, cmds: seq<Command>, r: (Intento, seq<Command>))
    requires cmds != [] && Falla(via, ex, h, cmds, 0)
    requires Caracterizado(via, ex, h + [cmds[0]], cmds[1..], r)
    ensures Caracterizado(via, ex, h, cmds, (Desplazado(r.0), r.1))
  {
    var h1 := h + [cmds[0]];
    assert h1 == h + cmds[..1];
    var n := match r.0 case Ganado(i) => i + 1 case Agotado => |cmds| case Abortado(i) => i + 1;
    DesplazarFallas(via, ex, h, cmds, n);
    if r.0.Agotado? {
      assert h1 + cmds[1..] == h + cmds;
    } else {
      assert h1 + cmds[1..][..r.0.indice + 1] == h + cmds[..r.0.indice + 2];
    }
  }

  /** Failures after one failed command are failures of the whole list,
      shifted by one. */
  lemma DesplazarFallas(via: Via, ex: Oracle, h: seq<Command>, cmds: seq<Command>, n: nat)
    requires 0 < |cmds| && n <= |cmds|
    ensures forall j :: 1 <= j < n ==>
      (Falla(via, ex, h, cmds, j) <==> Falla(via, ex, h + [cmds[0]], cmds[1..], j - 1))
    ensures forall j :: 0 <= j < n - 1 ==>
      (Falla(via, ex, h + [cmds[0]], cmds[1..], j) <==> Falla(via, ex, h, cmds, j + 1))
  {
    forall j | 1 <= j < n
      ensures h + cmds[..j + 1] == (h + [cmds[0]]) + cmds[1..][..j]
    {
      assert cmds[..j + 1] == [cmds[0]] + cmds[1..][..j];
    }
  }

  /** Conversely: the first success, after nothing but failures, is where the
      run stops. */
  lemma {:induction false} IntentarGana(via: Via, ex: Oracle, h: seq<Command>, cmds: seq<Command>, i: nat)
    requires i < |cmds| && forall j :: 0 <= j < i ==> Falla(via, ex, h, cmds, j)
    requires Interpretar(via, ex(h + cmds[..i + 1])) == Devuelto(true)
    ensures Intentar(via, ex, h, cmds) == (Ganado(i), h + cmds[..i + 1])
    decreases i
  {
    var h1 := h + [cmds[0]];
    assert h1 == h + cmds[..1];
    if i > 0 {
      assert Falla(via, ex, h, cmds, 0);
      DesplazarFallas(via, ex, h, cmds, i + 1);
      assert h1 + cmds[1..][..i] == h + cmds[..i + 1] by {
        assert cmds[..i + 1] == [cmds[0]] + cmds[1..][..i];
      }
      IntentarGana(via, ex, h1, cmds[1..], i - 1);
    }
  }

  /** The first exception, after nothing but failures, ends the run. */
  lemma {:induction false} IntentarAborta(via: Via, ex: Oracle, h: seq<Command>, cmds: seq<Command>, i: nat)
    requires i < |cmds| && forall j :: 0 <= j < i ==> Falla(via, ex, h, cmds, j)
    requires Interpretar(via, ex(h + cmds[..i + 1])) == Lanzado
    ensures Intentar(via, ex, h, cmds) == (Abortado(i), h + cmds[..i + 1])
    decreases i
  {
    var h1 := h + [cmds[0]];
    assert h1 == h + cmds[..1];
    if i > 0 {
      assert Falla(via, ex, h, cmds, 0);
      DesplazarFallas(via, ex, h, cmds, i + 1);
      assert h1 + cmds[1..][..i] == h + cmds[..i + 1] by {
        assert cmds[..i + 1] == [cmds[0]] + cmds[1..][..i];
      }
      IntentarAborta(via, ex, h1, cmds[1..], i - 1);
    }
  }

  /** When every command fails, every one is issued exactly once, in order. */
  lemma {:induction false} IntentarAgota(via: Via, ex: Oracle, h: seq<Command>, cmds: seq<Command>)
    requires forall j :: 0 <= j < |cmds| ==> Falla(via, ex, h, cmds, j)
    ensures Intentar(via, ex, h, cmds) == (Agotado, h + cmds)
    decreases |cmds|
  {
    if cmds != [] {
      var h1 := h + [cmds[0]];
      assert h1 == h + cmds[..1];
      assert Falla(via, ex, h, cmds, 0);
      DesplazarFallas(via, ex, h, cmds, |cmds|);
      IntentarAgota(via, ex, h1, cmds[1..]);
      assert h1 + cmds[1..] == h + cmds;
    } else {
      assert h + cmds == h;
    }
  }

  /** A run of a non-empty list seen from outside: a non-empty prefix ran,
      every command before its last failed, the run won exactly when the last
      succeeded, and it stopped short of the end only on a success or an
      exception. */
  lemma IntentarPrefijo(via: Via, ex: Oracle, h: seq<Command>, cmds: seq<Command>)
    requires cmds != []
    ensures var r := Intentar(via, ex, h, cmds);
      exists k :: 1 <= k <= |cmds| && r.1 == h + cmds[..k]
        && (r.0.Ganado? <==> Interpretar(via, ex(r.1)) == Devuelto(true))
        && (forall j :: 0 <= j < k - 1 ==> Falla(via, ex, h, cmds, j))
        && (!r.0.Ganado? && k < |cmds| ==> Interpretar(via, ex(r.1)) == Lanzado)
  {
    var r := Intentar(via, ex, h, cmds);
    IntentarCaracterizado(via, ex, h, cmds);
    match r.0
    case Ganado(i) =>
      assert 1 <= i + 1 <= |cmds| && r.1 == h + cmds[..i + 1];
    case Abortado(i) =>
      assert 1 <= i + 1 <= |cmds| && r.1 == h + cmds[..i + 1];
    case Agotado =>
      assert cmds[..|cmds|] == cmds;
      assert Falla(via, ex, h, cmds, |cmds| - 1);
  }

  /** A run of a non-empty list issues at least one and at most all of its
      commands, after the history it started from, and wins exactly when the
      last command issued succeeded. */
  lemma IntentarAcotado(via: Via, ex: Oracle, h: seq<Command>, cmds: seq<Command>)
    requires cmds != []
    ensures var r := Intentar(via, ex, h, cmds);
      |h| < |r.1| <= |h| + |cmds| && r.1[..|h|] == h && r.1[|h|] == cmds[0]
      && (r.0.Ganado? <==> ex(r.1).Success?)
  {
    IntentarPrefijo(via, ex, h, cmds);
    var r := Intentar(via, ex, h, cmds);
    var k :| 1 <= k <= |cmds| && r.1 == h + cmds[..k]
      && (r.0.Ganado? <==> Interpretar(via, ex(r.1)) == Devuelto(true));
    assert |r.1| == |h| + k && r.1[..|h|] == h && r.1[|h|] == cmds[0];
  }

  /** The run with one command in front: that command first, then the rest. */
  lemma IntentarCabeza(via: Via, ex: Oracle, h: seq<Command>, c: Command, resto: seq<Command>)
    ensures var a := Interpretar(via, ex(h + [c]));
      var r := Intentar(via, ex, h + [c], resto);
      PasoDe(Intentar(via, ex, h, [c] + resto).0) == (if a == Devuelto(false) then PasoDe(r.0) else a)
      && Intentar(via, ex, h, [c] + resto).1 == (if a == Devuelto(false) then r.1 else h + [c])
  {
    assert ([c] + resto)[1..] == resto;
  }
}
