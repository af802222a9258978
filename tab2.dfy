/** The Pomodoro screen (`Tab2`): a countdown of focus (25:00) and break (5:00)
    periods driven by one-second ticks, with start/pause and reset commands. */
module Pomodoro {
  import opened Optional
  import opened Storage

  /** The screen's four state fields. */
  datatype EstadoPomodoro = EstadoPomodoro(minutes: int, seconds: int, isRunning: bool, isBreak: bool)

  const MinutosFoco := 25
  const MinutosDescanso := 5
  const Inicial := EstadoPomodoro(MinutosFoco, 0, false, false)
  const TituloAlarma := "\U{23F0} Pomodoro terminado"
  const HoraDescansar := "¡Hora de descansar!"
  const HoraEnfocarse := "¡Hora de enfocarte!"

  /** Seconds left on the clock: the measure every running tick lowers. */
  function Total(c: EstadoPomodoro): int {
    c.minutes * 60 + c.seconds
  }

  /** The bounds the clock keeps: minutes not negative, seconds within a minute. */
  predicate EnRango(c: EstadoPomodoro) {
    c.minutes >= 0 && 0 <= c.seconds <= 59
  }

  /** The expiry branch applies: running at 0:00. */
  predicate Termina(c: EstadoPomodoro) {
    c.isRunning && c.minutes == 0 && c.seconds == 0
  }

  /** One step of the tick effect. Running with time left, the clock loses exactly one
      second; at 0:00 it stops and switches period, showing 5:00 for a break and 25:00
      for focus; paused, nothing changes. All steps keep the clock in range. */
  function Paso(c: EstadoPomodoro): (r: EstadoPomodoro)
    ensures !c.isRunning ==> r == c
    ensures c.isRunning && (c.minutes > 0 || c.seconds > 0) ==>
      Total(r) == Total(c) - 1 && r.isRunning && r.isBreak == c.isBreak
    ensures Termina(c) ==>
      !r.isRunning && r.isBreak == !c.isBreak && r.seconds == 0
      && r.minutes == (if r.isBreak then MinutosDescanso else MinutosFoco)
    ensures EnRango(c) ==> EnRango(r)
  {
    if c.isRunning && (c.minutes > 0 || c.seconds > 0) then
      if c.seconds == 0 then c.(minutes := c.minutes - 1, seconds := 59)
      else c.(seconds := c.seconds - 1)
    else if c.isRunning && c.minutes == 0 && c.seconds == 0 then
      EstadoPomodoro(if c.isBreak then MinutosFoco else MinutosDescanso, 0, false, !c.isBreak)
    else c
  }

  /** Within range, the clock fields are the minutes and seconds of `Total`. */
  lemma EnRangoDetermina(c: EstadoPomodoro)
    requires EnRango(c)
    ensures c.minutes == Total(c) / 60 && c.seconds == Total(c) % 60
  {
  }

  /** `n` ticks in a row: they keep the clock in range, and a paused clock stays as it is. */
  function Pasos(c: EstadoPomodoro, n: nat): (r: EstadoPomodoro)
    ensures EnRango(c) ==> EnRango(r)
    ensures !c.isRunning ==> r == c
    decreases n
  {
    if n == 0 then c else Pasos(Paso(c), n - 1)
  }

  /** Running, the clock counts down one second per tick without changing period. */
  lemma {:induction false} CuentaRegresiva(c: EstadoPomodoro, n: nat)
    requires EnRango(c) && c.isRunning && n <= Total(c)
    ensures var r := Pasos(c, n);
      EnRango(r) && r.isRunning && r.isBreak == c.isBreak && Total(r) == Total(c) - n
    decreases n
  {
    if n > 0 {
      CuentaRegresiva(Paso(c), n - 1);
    }
  }

  /** A running period ends after its remaining seconds plus one tick: the clock stops
      in the other period, set to that period's length. */
  lemma FinDePeriodo(c: EstadoPomodoro)
    requires EnRango(c) && c.isRunning
    ensures Pasos(c, Total(c) + 1) ==
      EstadoPomodoro(if c.isBreak then MinutosFoco else MinutosDescanso, 0, false, !c.isBreak)
  {
    var n: nat := Total(c);
    CuentaRegresiva(c, n);
    PasosSuma(c, n, 1);
  }

  lemma {:induction false} PasosSuma(c: EstadoPomodoro, a: nat, b: nat)
    ensures Pasos(c, a + b) == Pasos(Pasos(c, a), b)
    decreases a
  {
    if a > 0 {
      PasosSuma(Paso(c), a - 1, b);
    }
  }

  /** `startPause`: only `isRunning` changes, and it flips. */
  function Conmutar(c: EstadoPomodoro): (r: EstadoPomodoro)
    ensures r.isRunning == !c.isRunning
    ensures r.(isRunning := c.isRunning) == c
  {
    c.(isRunning := !c.isRunning)
  }

  /** `reset`: paused focus at 25:00 whatever came before; a tick there does nothing. */
  function Reiniciar(c: EstadoPomodoro): (r: EstadoPomodoro)
    ensures !r.isRunning && !r.isBreak && r.minutes == MinutosFoco && r.seconds == 0
    ensures Paso(r) == r
  {
    Inicial
  }

  /** The two commands and the flag hand-over touch only `isRunning`, so together with
      `Paso` every transition keeps the clock in range. */
  lemma ComandosEnRango(c: EstadoPomodoro, flag: Option<string>)
    requires EnRango(c)
    ensures EnRango(Conmutar(c)) && EnRango(Reiniciar(c)) && EnRango(TrasInicio(c, flag))
  {
  }

  /** Resetting twice is resetting once. */
  lemma ReiniciarIdempotente(c: EstadoPomodoro)
    ensures Reiniciar(Reiniciar(c)) == Reiniciar(c)
  {
  }

  /** The mount effect: a stored `'true'` under `pomodoroStart` starts the clock; any
      other value leaves it as it was. */
  function TrasInicio(c: EstadoPomodoro, flag: Option<string>): (r: EstadoPomodoro)
    ensures flag == Some("true") ==> r == c.(isRunning := true)
    ensures flag != Some("true") ==> r == c
  {
    if flag == Some("true") then c.(isRunning := true) else c
  }

  /** What the expiry branch asks of the platform: a 1000 ms vibration and an immediate
      notification whose id is the clock. */
  datatype Alarma = Alarma(vibracionMs: int, id: int, title: string, body: string)

  /** The notification text as the source computes it, from the period that just
      ended: `isBreak ? '¡Hora de descansar!' : '¡Hora de enfocarte!'`. */
  function CuerpoTalCual(terminabaDescanso: bool): (s: string)
    ensures s == HoraDescansar <==> terminabaDescanso
    ensures s == HoraEnfocarse <==> !terminabaDescanso
  {
    if terminabaDescanso then HoraDescansar else HoraEnfocarse
  }

  /** As written, the text always announces the period that is NOT starting: after a
      focus period it says to focus, after a break it says to rest. */
  lemma CuerpoTalCualInvertido(c: EstadoPomodoro)
    requires Termina(c)
    ensures CuerpoTalCual(c.isBreak) == HoraDescansar <==> !Paso(c).isBreak
  {
  }

  /** The corrected notification text, chosen from the same period that just ended: it
      says to focus after a break and to rest after focus, so it is never the text as
      written. */
  function CuerpoAviso(terminabaDescanso: bool): (s: string)
    ensures s == HoraDescansar <==> !terminabaDescanso
    ensures s == HoraEnfocarse <==> terminabaDescanso
    ensures s != CuerpoTalCual(terminabaDescanso)
  {
    if terminabaDescanso then HoraEnfocarse else HoraDescansar
  }

  /** The alarm a step raises, as the source raises it: exactly at expiry, with the text
      chosen from the period that just ended, so it names the period that is not starting. */
  function AlarmaDe(c: EstadoPomodoro, now: int): (a: Option<Alarma>)
    ensures a.Some? <==> Termina(c)
    ensures a.Some? ==> a.value.id == now && a.value.vibracionMs == 1000 && a.value.title == TituloAlarma
    ensures a.Some? ==> (a.value.body == HoraDescansar <==> !Paso(c).isBreak)
  {
    if Termina(c) then Some(Alarma(1000, now, TituloAlarma, CuerpoTalCual(c.isBreak))) else None
  }

  /** The alarm with the corrected text: raised at the same moments, announcing the
      period that starts. */
  function AlarmaCorregida(c: EstadoPomodoro, now: int): (a: Option<Alarma>)
    ensures a.Some? <==> Termina(c)
    ensures a.Some? ==> a.value.id == now && a.value.vibracionMs == 1000 && a.value.title == TituloAlarma
    ensures a.Some? ==> (a.value.body == HoraDescansar <==> Paso(c).isBreak)
  {
    if Termina(c) then Some(Alarma(1000, now, TituloAlarma, CuerpoAviso(c.isBreak))) else None
  }

  /** At every expiry the alarm as written and the corrected one differ in their text,
      and only there. */
  lemma AlarmaDifiere(c: EstadoPomodoro, now: int)
    requires Termina(c)
    ensures AlarmaDe(c, now).value.body != AlarmaCorregida(c, now).value.body
    ensures AlarmaDe(c, now).value.(body := AlarmaCorregida(c, now).value.body) == AlarmaCorregida(c, now).value
  {
  }

  class Tab2 {
    var minutes: int
    var seconds: int
    var isRunning: bool
    var isBreak: bool
    const store: Store

    function Estado(): EstadoPomodoro
      reads this
    {
      EstadoPomodoro(minutes, seconds, isRunning, isBreak)
    }

    constructor (store: Store)
      ensures this.store == store && Estado() == Inicial
    {
      this.store := store;
      minutes, seconds, isRunning, isBreak := MinutosFoco, 0, false, false;
    }

    /** The mount effect: consume the hand-over flag from the creation screen. */
    method ConsumirInicio()
      modifies this, store
      ensures Estado() == TrasInicio(old(Estado()), old(store.pomodoroStart))
      ensures store.pomodoroStart == (if old(store.pomodoroStart) == Some("true") then None else old(store.pomodoroStart))
      ensures store.tareas == old(store.tareas)
    {
      if store.pomodoroStart == Some("true") {
        isRunning := true;
        store.pomodoroStart := None;
      }
    }

    /** One firing of the tick effect (the timeout callback, or the expiry branch). */
    method Tick(now: int) returns (alarma: Option<Alarma>)
      modifies this
      ensures Estado() == Paso(old(Estado()))
      ensures alarma == AlarmaDe(old(Estado()), now)
    {
      alarma := None;
      if isRunning && (minutes > 0 || seconds > 0) {
        if seconds == 0 {
          minutes := minutes - 1;
          seconds := 59;
        } else {
          seconds := seconds - 1;
        }
      } else if isRunning && minutes == 0 && seconds == 0 {
        var wasBreak := isBreak;
        isRunning := false;
        isBreak := !wasBreak;
        minutes := if wasBreak then MinutosFoco else MinutosDescanso;
        seconds := 0;
        alarma := Some(Alarma(1000, now, TituloAlarma, CuerpoTalCual(wasBreak)));
      }
    }

    method StartPause()
      modifies this
      ensures Estado() == Conmutar(old(Estado()))
    {
      isRunning := !isRunning;
    }

    method Reset()
      modifies this
      ensures Estado() == Reiniciar(old(Estado()))
    {
      isRunning := false;
      isBreak := false;
      minutes := MinutosFoco;
      seconds := 0;
    }
  }
}
