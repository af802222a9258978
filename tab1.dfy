/** The creation screen (`Tab1`): validating the form, building the task, appending it
    to the stored list, arming a reminder notification and choosing the next screen. */
module Creacion {
  import opened Optional
  import opened Text
  import opened Tareas
  import opened Storage
  import ListaTareas
  import CuentaAtras

  /** The form's state: the segment (`modo`) and the three text inputs. */
  datatype Formulario = Formulario(modo: Tipo, titulo: string, fechaHora: string, minutos: string)

  /** A local notification the screen asks the platform to schedule. */
  datatype Aviso = Aviso(id: int, title: string, body: string, at: int)

  /** `history.push('/tab2')` or `history.push('/tab3')`. */
  datatype Ruta = Tab2Pomodoro | Tab3Lista

  datatype Resultado =
    | Rechazada(mensaje: string)
    | Creada(tarea: Tarea, aviso: Option<Aviso>, ruta: Ruta)

  const MinutosPorDefecto := 25
  const TituloAviso := "\U{1F514} Neon Focus"
  const FaltaTitulo := "Escribe un título"
  const FaltaFecha := "Selecciona fecha y hora"
  const FaltanMinutos := "Ingresa los minutos"

  /** The three early returns of `crearTarea`, in their order: a blank title, a
      reminder without a date, a timer without minutes. */
  function Validar(f: Formulario): (e: Option<string>)
    ensures e.None? <==> (
      && !AllWhitespace(f.titulo)
      && (f.modo == Recordatorio ==> f.fechaHora != [])
      && (f.modo == Temporizador ==> f.minutos != []))
    ensures AllWhitespace(f.titulo) ==> e == Some(FaltaTitulo)
    ensures !AllWhitespace(f.titulo) && f.modo == Recordatorio && f.fechaHora == [] ==> e == Some(FaltaFecha)
    ensures !AllWhitespace(f.titulo) && f.modo == Temporizador && f.minutos == [] ==> e == Some(FaltanMinutos)
  {
    if Trim(f.titulo) == [] then Some(FaltaTitulo)
    else if f.modo == Recordatorio && f.fechaHora == [] then Some(FaltaFecha)
    else if f.modo == Temporizador && f.minutos == [] then Some(FaltanMinutos)
    else None
  }

  /** `Number(minutos) || 25`: the parsed minutes, or 25 when the text reads as 0 or as
      no number. Never 0. */
  function MinutosTemporizador(s: string): (m: int)
    ensures m != 0
    ensures ToNumber(s).Some? && ToNumber(s).value != 0 ==> m == ToNumber(s).value
    ensures ToNumber(s).None? || ToNumber(s) == Some(0) ==> m == MinutosPorDefecto
  {
    match ToNumber(s)
    case Some(n) => if n != 0 then n else MinutosPorDefecto
    case None => MinutosPorDefecto
  }

  /** `nuevaTarea`: trimmed title, id and no start time; the date only for a reminder and
      the minutes only for a timer; a valid form gives a well-formed task. */
  function NuevaTarea(f: Formulario, now: int): (t: Tarea)
    ensures t.id == now && t.titulo == Trim(f.titulo) && t.tipo == f.modo
    ensures !t.completada && t.tiempoInicio.None?
    ensures t.fechaHora == (if f.modo == Recordatorio then Some(f.fechaHora) else None)
    ensures t.minutos == (if f.modo == Temporizador then Some(MinutosTemporizador(f.minutos)) else None)
    ensures Validar(f).None? ==> TareaValida(t)
  {
    var t := Tarea(
      now,
      Trim(f.titulo),
      f.modo,
      if f.modo == Recordatorio then Some(f.fechaHora) else None,
      if f.modo == Temporizador then Some(MinutosTemporizador(f.minutos)) else None,
      false,
      None);
    TrimIdempotent(f.titulo);
    t
  }

  /** The notification block: only a reminder with a date whose timestamp (`dueAt`, as the
      date library reads `fechaHora`; `None` for an invalid date) is strictly later than
      `now`, and only when permission is granted. It carries the task's id and title. */
  function AvisoPara(t: Tarea, dueAt: Option<int>, now: int, granted: bool): (a: Option<Aviso>)
    ensures a.Some? <==> (
      && t.tipo == Recordatorio && TruthyText(t.fechaHora)
      && dueAt.Some? && dueAt.value > now && granted)
    ensures a.Some? ==> a.value == Aviso(t.id, TituloAviso, t.titulo, dueAt.value)
    ensures t.tipo == Temporizador ==> a.None?
  {
    if t.tipo == Recordatorio && TruthyText(t.fechaHora) && dueAt.Some? && dueAt.value > now && granted then
      Some(Aviso(t.id, TituloAviso, t.titulo, dueAt.value))
    else None
  }

  /** A 25-minute timer hands over to the Pomodoro screen; anything else goes to the list. */
  function RutaSiguiente(t: Tarea): (r: Ruta)
    ensures r == Tab2Pomodoro <==> t.tipo == Temporizador && t.minutos == Some(MinutosPorDefecto)
  {
    if t.tipo == Temporizador && t.minutos == Some(MinutosPorDefecto) then Tab2Pomodoro else Tab3Lista
  }

  class Tab1 {
    var modo: Tipo
    var titulo: string
    var fechaHora: string
    var minutos: string
    const store: Store

    constructor (store: Store)
      ensures this.store == store
      ensures modo == Recordatorio && titulo == [] && fechaHora == [] && minutos == []
    {
      this.store := store;
      modo := Recordatorio;
      titulo, fechaHora, minutos := [], [], [];
    }

    function Form(): Formulario
      reads this
    {
      Formulario(modo, titulo, fechaHora, minutos)
    }

    /** `crearTarea`. A rejected form changes nothing. Otherwise the new task is pushed
        onto the loaded list and the list is written back, the text fields are cleared,
        and a Pomodoro hand-over also sets the `pomodoroStart` flag. The clock is read
        twice: `now` when the task is built (its id), `nowAviso` after the list is written,
        for the notification test. */
    method CrearTarea(now: int, nowAviso: int, dueAt: Option<int>, granted: bool) returns (res: Resultado)
      modifies this, store
      ensures Validar(old(Form())).Some? ==>
        res == Rechazada(Validar(old(Form())).value) && unchanged(this) && unchanged(store)
      ensures Validar(old(Form())).None? ==>
        var t := NuevaTarea(old(Form()), now);
        && res == Creada(t, AvisoPara(t, dueAt, nowAviso, granted), RutaSiguiente(t))
        && store.tareas == Some(Cargadas(old(store.tareas)) + [t])
        && store.pomodoroStart == (if res.ruta == Tab2Pomodoro then Some("true") else old(store.pomodoroStart))
        && modo == old(modo) && titulo == [] && fechaHora == [] && minutos == []
    {
      var error := Validar(Form());
      if error.Some? {
        return Rechazada(error.value);
      }
      var tareas := Cargadas(store.tareas);
      var nuevaTarea := NuevaTarea(Form(), now);
      tareas := tareas + [nuevaTarea];
      store.tareas := Some(tareas);
      var aviso := AvisoPara(nuevaTarea, dueAt, nowAviso, granted);
      titulo, fechaHora, minutos := [], [], [];
      var ruta := RutaSiguiente(nuevaTarea);
      if ruta == Tab2Pomodoro {
        store.pomodoroStart := Some("true");
      }
      res := Creada(nuevaTarea, aviso, ruta);
    }
  }

  /** Appending a created task keeps the list well-formed, and keeps ids unique when the
      clock is later than every stored id (ids are creation times). */
  lemma CrearPreservaLista(s: seq<Tarea>, f: Formulario, now: int)
    requires Validar(f).None? && TodasValidas(s) && IdsUnicos(s)
    requires forall i :: 0 <= i < |s| ==> s[i].id < now
    ensures TodasValidas(s + [NuevaTarea(f, now)]) && IdsUnicos(s + [NuevaTarea(f, now)])
  {
    var t := NuevaTarea(f, now);
    var r := s + [t];
    forall i | 0 <= i < |r| ensures TareaValida(r[i]) && (i < |s| ==> r[i] == s[i]) {
      if i < |s| { assert r[i] == s[i]; } else { assert r[i] == t; }
    }
    forall i, j | 0 <= i < j < |r| ensures r[i].id != r[j].id {
      if j < |s| { assert r[i] == s[i] && r[j] == s[j]; } else { assert r[j] == t && r[i] == s[i]; }
    }
  }

  /** A text that reads as 0, or as no number, still yields a 25-minute timer, and so the
      Pomodoro hand-over, whatever the clock. */
  lemma CeroEsPomodoro(titulo: string, now: int)
    requires !AllWhitespace(titulo)
    ensures var f := Formulario(Temporizador, titulo, [], "0");
      Validar(f).None? && NuevaTarea(f, now).minutos == Some(MinutosPorDefecto)
      && RutaSiguiente(NuevaTarea(f, now)) == Tab2Pomodoro
    ensures var f := Formulario(Temporizador, titulo, [], "abc");
      Validar(f).None? && NuevaTarea(f, now).minutos == Some(MinutosPorDefecto)
      && RutaSiguiente(NuevaTarea(f, now)) == Tab2Pomodoro
  {
    var z := "0";
    NumberOfDigits(z);
    assert ParseNat(z) == 0 by { assert z[..0] == []; }
    var a := "abc";
    TrimUnchanged(a);
    assert !IsDigit(a[0]);
    assert ToNumber(a).None?;
  }

  /** A negative minutes text is kept as it reads (`Number("-5") || 25` is -5), so the
      timer goes to the list, and the first tick after its stamp completes it. */
  lemma MinutosNegativos(titulo: string, now: int, later: int)
    requires !AllWhitespace(titulo) && later != 0
    ensures var t := NuevaTarea(Formulario(Temporizador, titulo, [], "-5"), now);
      var u := ListaTareas.Iniciar(t, later);
      && t.minutos == Some(-5) && RutaSiguiente(t) == Tab3Lista
      && ListaTareas.Activo(u) && CuentaAtras.Restantes(u, later) == 0
      && ListaTareas.Vence(u, later)
  {
    assert NatToString(5) == "5";
    NumberOfNegative(5);
    assert "-5" == "-" + NatToString(5);
  }

  /** "25" typed as minutes gives the Pomodoro hand-over; once the list screen stamps the
      timer it shows the full 1500 seconds, not yet completed. */
  lemma VeinticincoMinutos(titulo: string, now: int, later: int)
    requires !AllWhitespace(titulo) && later != 0
    ensures var t := NuevaTarea(Formulario(Temporizador, titulo, [], "25"), now);
      var u := ListaTareas.Iniciar(t, later);
      && t.minutos == Some(25) && RutaSiguiente(t) == Tab2Pomodoro
      && ListaTareas.Activo(u) && CuentaAtras.Restantes(u, later) == 1500
  {
    var s := "25";
    NumberOfDigits(s);
    assert ParseNat(s) == 25 by {
      assert s[..1] == "2";
      assert "2"[..0] == [];
    }
  }
}
