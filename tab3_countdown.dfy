/** What the list screen shows under a task (`formatoTiempoRestante`): the remaining
    time of a running timer as `MM:SS`, computed with whole seconds. */
module CuentaAtras {
  import opened Optional
  import opened Tareas
  import opened Text
  import opened ListaTareas

  /** Seconds left on a running timer, after the clamp at zero. It is zero exactly
      when the tick completes the timer, and it never exceeds the duration once the
      clock has reached the start time. */
  function Restantes(t: Tarea, now: int): (r: nat)
    requires Activo(t)
    ensures r == 0 <==> Vence(t, now)
    ensures now >= t.tiempoInicio.value ==> r == 0 || r <= t.minutos.value * 60
    ensures r > 0 ==> r == RestantesBrutos(t, now)
  {
    var restantes := RestantesBrutos(t, now);
    if restantes < 0 then 0 else restantes
  }

  /** The remaining time never goes up as the clock advances. */
  lemma RestantesNoCrece(t: Tarea, now1: int, now2: int)
    requires Activo(t) && now1 <= now2
    ensures Restantes(t, now2) <= Restantes(t, now1)
  {
  }

  /** At its start moment a timer shows its whole duration. */
  lemma RestantesAlInicio(t: Tarea)
    requires Activo(t) && t.minutos.value > 0
    ensures Restantes(t, t.tiempoInicio.value) == t.minutos.value * 60
  {
  }

  /** `min = Math.floor(restantes / 60)`, `seg = restantes % 60`: the one split of `r`
      into whole minutes and a seconds part below 60. */
  function MinSeg(r: nat): (p: (nat, nat))
    ensures p.1 < 60 && p.0 * 60 + p.1 == r
  {
    (r / 60, r % 60)
  }

  /** First position of `c` in `s`, if any. */
  function Posicion(s: string, c: char): (k: Option<nat>)
    ensures k.Some? ==> k.value < |s| && s[k.value] == c
    ensures k.Some? ==> forall j :: 0 <= j < k.value ==> s[j] != c
    ensures k.None? ==> forall j :: 0 <= j < |s| ==> s[j] != c
  {
    if s == [] then None
    else if s[0] == c then Some(0)
    else match Posicion(s[1..], c)
      case None => None
      case Some(k) => Some(k + 1)
  }

  /** Reads a `min:seg` text back as a number of seconds. */
  function LeerReloj(s: string): Option<nat> {
    match Posicion(s, ':')
    case None => None
    case Some(k) => LeerPartes(s[..k], s[k + 1..])
  }

  function LeerPartes(a: string, b: string): Option<nat> {
    if a != [] && b != [] && AllDigits(a) && AllDigits(b) then Some(ParseNat(a) * 60 + ParseNat(b))
    else None
  }

  /** Two-or-more-digit zero-padded decimal rendering, as `toString().padStart(2, '0')`. */
  function Campo(n: nat): (s: string)
    ensures |s| >= 2 && AllDigits(s) && ParseNat(s) == n
  {
    var d := NatToString(n);
    PadStart2Value(d);
    ParseNatToString(n);
    PadStart2(d)
  }

  /** In `a:b` with `a` made of digits, the first colon is the one after `a`. */
  lemma {:induction false} PosicionSeparador(a: string, b: string)
    requires AllDigits(a)
    ensures Posicion(a + ":" + b, ':') == Some(|a|)
  {
    if a != [] {
      assert (a + ":" + b)[1..] == a[1..] + ":" + b;
      PosicionSeparador(a[1..], b);
    }
  }

  /** Reading `a:b` back with `a` free of colons reads the two parts. */
  lemma LeerRelojSepara(a: string, b: string)
    requires LeerPartes(a, b).Some?
    ensures LeerReloj(a + ":" + b) == LeerPartes(a, b)
  {
    PartesSeparadas(a, b);
    PosicionSeparador(a, b);
  }

  lemma PartesSeparadas(a: string, b: string)
    ensures (a + ":" + b)[..|a|] == a && (a + ":" + b)[|a| + 1..] == b
  {
  }

  /** The `MM:SS` text of a remaining time: at least five characters, and reading it
      back gives the remaining time. */
  function Reloj(r: nat): (s: string)
    ensures |s| >= 5
    ensures LeerReloj(s) == Some(r)
  {
    var p := MinSeg(r);
    var a, b := Campo(p.0), Campo(p.1);
    assert LeerPartes(a, b) == Some(r);
    LeerRelojSepara(a, b);
    a + ":" + b
  }

  /** What a task shows: a reminder's date goes through the locale formatter, which is
      not part of this model; everything else is text. */
  datatype Etiqueta = FechaLocal(fechaHora: string) | Texto(texto: string)

  /** `formatoTiempoRestante`. A running timer shows its countdown, which reads back
      as the remaining seconds; a dated reminder shows its date; any other task shows
      its minutes, or nothing. */
  function FormatoTiempoRestante(t: Tarea, now: int): (e: Etiqueta)
    ensures t.tipo == Recordatorio && TruthyText(t.fechaHora) ==> e == FechaLocal(t.fechaHora.value)
    ensures Activo(t) ==> e.Texto? && |e.texto| >= 5 && LeerReloj(e.texto) == Some(Restantes(t, now))
    ensures !Activo(t) && !(t.tipo == Recordatorio && TruthyText(t.fechaHora)) ==>
      e == Texto(if Truthy(t.minutos) then IntToString(t.minutos.value) + " min" else "")
  {
    if t.tipo == Recordatorio && TruthyText(t.fechaHora) then FechaLocal(t.fechaHora.value)
    else if Activo(t) then Texto(Reloj(Restantes(t, now)))
    else Texto(if Truthy(t.minutos) then IntToString(t.minutos.value) + " min" else "")
  }
}
