# Neon Focus: task list, task creation and Pomodoro rules in Dafny

Neon Focus is a small mobile app with three screens. The creation screen (`Tab1`)
builds reminders and countdown timers and appends them to a stored task list. The
Pomodoro screen (`Tab2`) runs a 25-minute focus / 5-minute break countdown. The list
screen (`Tab3`) stamps start times on timers, completes expired timers once a second,
and toggles or deletes tasks by id.

This project models the logic of those three screens, with rendering left out, and
proves what it promises:

- `Optional`: the `Option` datatype.
- `Text`: the JavaScript string operations the screens use. These are `trim`,
  integer `toString`, `padStart(2, '0')`, and `Number` on integer text.
- `Tareas`: the `Tarea` record, JavaScript truthiness of its optional fields, and
  what a well-formed list is (valid tasks, unique ids).
- `Storage`: the key-value store as one object holding the two keys `tareas` and
  `pomodoroStart`. The stored JSON text of the list is taken to be the list itself.
- `ListaTareas`: the list operations as functions on the whole list (start stamping,
  the one-second reconcile, toggle, delete) and their lemmas.
- `CuentaAtras`: the remaining time of a running timer and its `MM:SS` text.
- `PantallaTareas`: the list screen as a class. Its field `tareas` is the shown list;
  its methods are the screen's events and write to the store.
  `EjemploVencido` is a worked example of a client using the screen: a one-minute
  timer started 61 seconds earlier is left as it is by loading, and the next tick
  completes it and writes the list.
- `Creacion`: validation, record construction, notification arming and routing, and
  the creation screen as a class whose `CrearTarea` method appends to the store.
- `Pomodoro`: the four-field countdown state machine, as functions and as a class
  with the screen's fields.

Platform inputs become parameters:

- `Date.now()` is the integer `now`, in milliseconds.
- The timestamp the date library reads from `fechaHora` is `dueAt: Option<int>`.
  `None` stands for an invalid date (NaN).
- The notification permission answer is `granted: bool`.
- Notifications, vibration and navigation are returned as values (`Aviso`,
  `Alarma`, `Ruta`). They are not performed.

Four behaviours of the code that a reader might not expect. The model follows the code in each:

- The creation screen arms a notification only for reminders, never for timers.
- A stored list that fails to parse is not handled. No reset to an empty list is
  modelled.
- A start stamp of `0` is falsy. A timer stamped at clock `0` is stamped again on the
  next load, so "started at most once" holds only for a non-zero clock
  (`IniciarTodasUnaVez`).
- A negative minutes entry is kept: `Number("-5") || 25` is -5. That timer shows
  00:00, and the first tick after its stamp completes it (`MinutosNegativos`).

## Model

| member | source | states |
|---|---|---|
| Text.Trim | src/pages/Tab1.tsx:39 | `trim` leaves no whitespace at either end, and the result is empty exactly when the title is all whitespace |
| Text.TrimStart | src/pages/Tab1.tsx:59 | cutting leading whitespace never lengthens the text and leaves it empty or starting with a non-whitespace character |
| Text.TrimStartSuffix | src/pages/Tab1.tsx:59 | what the leading cut leaves is a suffix of the input, and everything cut before it is whitespace |
| Text.TrimEnd | src/pages/Tab1.tsx:59 | cutting trailing whitespace never lengthens the text and leaves it empty or ending with a non-whitespace character |
| Text.TrimEndPrefix | src/pages/Tab1.tsx:59 | what the trailing cut leaves is a prefix of the input, and everything cut after it is whitespace |
| Text.TrimIsInfix | src/pages/Tab1.tsx:59 | the trimmed title is one contiguous piece of the input, and everything cut off on either side is whitespace |
| Text.TrimIdempotent | src/pages/Tab1.tsx:59 | trimming the stored (already trimmed) title again changes nothing |
| Text.ToNumber | src/pages/Tab1.tsx:62 | `Number` of a blank text is 0 |
| Text.NumberOfDigits | src/pages/Tab1.tsx:62 | `Number` reads a plain digit string as its decimal value |
| Text.NumberOfIntToString | src/pages/Tab1.tsx:62 | `Number(String(i)) == i` for every integer |
| Text.NumberOfNegative | src/pages/Tab1.tsx:62 | `Number` reads a minus sign followed by the decimal text of a positive number as its negation |
| Text.NatToString | src/pages/Tab3.tsx:105 | `toString` of a natural gives a non-empty digit string with no leading zero, of one character exactly below 10 |
| Text.IntToString | src/pages/Tab3.tsx:108 | `toString` of an integer is non-empty, starts with `-` exactly for a negative number, and is all digits otherwise |
| Text.ParseNatToString | src/pages/Tab3.tsx:105 | the decimal text of a number reads back as that number |
| Text.PadStart2 | src/pages/Tab3.tsx:105 | `padStart(2, '0')` gives at least two characters, the original text at the end, zeros before it |
| Text.PadStart2Value | src/pages/Tab3.tsx:105 | zero padding keeps a digit string's value |
| Storage.Cargadas | src/pages/Tab3.tsx:25 | a missing key loads as the empty list, and a written list loads back exactly as written |
| ListaTareas.Iniciar | src/pages/Tab3.tsx:29-32 | a task that needs a stamp gets `tiempoInicio = now`, every other task is returned as it was, no other field changes, and after a non-zero stamp the task needs none |
| ListaTareas.IniciarTodas | src/pages/Tab3.tsx:28-33 | stamping start times keeps the list length |
| ListaTareas.IniciarTodasAt | src/pages/Tab3.tsx:28-33 | a task gets `tiempoInicio = now` exactly when it is a non-completed timer without a truthy start; every other task is returned unchanged, and no other field changes |
| ListaTareas.IniciarTodasUnaVez | src/pages/Tab3.tsx:29 | after a stamp with a non-zero clock, loading again at any later time changes nothing |
| ListaTareas.Transcurridos | src/pages/Tab3.tsx:54 | the elapsed whole seconds are the floor of the elapsed milliseconds divided by 1000 |
| ListaTareas.Activo | src/pages/Tab3.tsx:53 | a timer the tick (and, at line 96, the display) looks at has minutes and a start stamp, both present and non-zero |
| ListaTareas.RestantesBrutos | src/pages/Tab3.tsx:55-56 | the unclamped remaining seconds are at most 0 exactly when at least `minutos*60000` ms have elapsed, and equal `minutos*60` at the start moment |
| ListaTareas.Vence | src/pages/Tab3.tsx:53-58 | a task expires exactly when it is an active timer and at least `minutos*60000` ms have elapsed since its start |
| ListaTareas.Reconciliar1 | src/pages/Tab3.tsx:53-63 | one task ends completed exactly when it was completed or it expires at `now`, and no other field changes |
| ListaTareas.Reconciliar | src/pages/Tab3.tsx:52-64 | the tick keeps the list length |
| ListaTareas.ReconciliarAt | src/pages/Tab3.tsx:53-61 | a task is completed after the tick exactly when it was already completed, or it is a running timer with truthy minutes and start and `minutos*60 - floor((now - tiempoInicio)/1000) <= 0`; no other field changes |
| ListaTareas.ReconciliarMonotono | src/pages/Tab3.tsx:53-63 | the tick never touches a completed task or a reminder |
| ListaTareas.ReconciliarIdempotente | src/pages/Tab3.tsx:52-64 | reconciling twice with the same clock equals reconciling once |
| ListaTareas.ReconciliarCambia | src/pages/Tab3.tsx:67-69 | the reconciled list differs from the previous one exactly when some task expires at `now` |
| ListaTareas.Alternar | src/pages/Tab3.tsx:79 | toggling keeps the list length |
| ListaTareas.Alternar1 | src/pages/Tab3.tsx:79 | one task's `completada` flips exactly when its id matches, and no other field changes |
| ListaTareas.AlternarAt | src/pages/Tab3.tsx:79 | `completada` flips exactly on tasks with the given id; nothing else changes |
| ListaTareas.AlternarDosVeces | src/pages/Tab3.tsx:79 | toggling the same id twice restores the list |
| ListaTareas.Borrar | src/pages/Tab3.tsx:85 | deleting never lengthens the list |
| ListaTareas.BorrarMiembros | src/pages/Tab3.tsx:85 | a task survives deletion exactly when it was in the list with a different id |
| ListaTareas.BorrarConcat | src/pages/Tab3.tsx:85 | deletion distributes over concatenation, so survivors keep their relative order |
| ListaTareas.BorrarLongitud | src/pages/Tab3.tsx:85 | the list shrinks by the number of tasks carrying the id |
| ListaTareas.ContarIdUnico | src/pages/Tab3.tsx:85 | with unique ids, an id occurs once if present and not at all otherwise |
| ListaTareas.BorrarUnico | src/pages/Tab3.tsx:85 | with unique ids, deleting a present id shortens the list by exactly one, and deleting an absent id leaves the list as it was |
| ListaTareas.BorrarAusente | src/pages/Tab3.tsx:85 | deleting an id no task has leaves the list as it was |
| ListaTareas.BorrarPreserva | src/pages/Tab3.tsx:85 | deleting keeps a list of valid tasks with unique ids valid and unique |
| ListaTareas.OperacionesPreservanLista | src/pages/Tab3.tsx:28-85 | stamping, reconciling, toggling and deleting all keep a list of well-formed tasks with unique ids well-formed and unique |
| CuentaAtras.Restantes | src/pages/Tab3.tsx:96-101 | the clamped remaining seconds are zero exactly when the tick completes the timer; once `now >= tiempoInicio` they are zero or at most `minutos*60`; when positive they equal the unclamped difference |
| CuentaAtras.RestantesNoCrece | src/pages/Tab3.tsx:96-101 | remaining time never goes up as the clock advances |
| CuentaAtras.RestantesAlInicio | src/pages/Tab3.tsx:96-101 | at its start moment a timer with positive minutes shows its whole duration in seconds |
| CuentaAtras.MinSeg | src/pages/Tab3.tsx:103-104 | `min = r / 60`, `seg = r % 60` satisfy `seg < 60` and `min*60 + seg == r` |
| CuentaAtras.Posicion | src/pages/Tab3.tsx:105 | a helper of the reader `LeerReloj`, which reads the line-105 text back for `Reloj`; the source itself searches for no character. The position found holds the searched character and no earlier position does; no position means the character does not occur |
| CuentaAtras.Campo | src/pages/Tab3.tsx:105 | each padded field has at least two digits and reads back as its number |
| CuentaAtras.Reloj | src/pages/Tab3.tsx:103-105 | the `MM:SS` text has at least 5 characters and reads back as the remaining seconds |
| CuentaAtras.FormatoTiempoRestante | src/pages/Tab3.tsx:90-109 | a dated reminder shows its date; a running timer shows a countdown of at least 5 characters that reads back as the remaining seconds; any other task shows `<minutos> min` or nothing |
| PantallaTareas.Tab3.CargarTareas | src/pages/Tab3.tsx:23-37 | the shown list is the loaded list with start times stamped, and it is written back unconditionally |
| PantallaTareas.Tab3.Tick | src/pages/Tab3.tsx:50-72 | the shown list becomes the reconciled list; the store is written exactly when the list changed, which is exactly when some timer expired |
| PantallaTareas.Tab3.ToggleCompletada | src/pages/Tab3.tsx:78-82 | the shown and stored list become the toggled list |
| PantallaTareas.Tab3.BorrarTarea | src/pages/Tab3.tsx:84-88 | the shown and stored list become the list without that id |
| Creacion.Validar | src/pages/Tab1.tsx:39-52 | creation is rejected exactly when the title is blank, or a reminder has no date, or a timer has no minutes text, with the message of the first failing check |
| Creacion.MinutosTemporizador | src/pages/Tab1.tsx:62 | timer minutes are the parsed number when it is non-zero, and 25 when the text reads as 0 or as no number; never 0 |
| Creacion.NuevaTarea | src/pages/Tab1.tsx:57-64 | the new task has the trimmed title, `id = now`, `completada = false`, no start time, the date only for a reminder and the minutes only for a timer; a valid form gives a well-formed task |
| Creacion.AvisoPara | src/pages/Tab1.tsx:69-90 | a notification is armed exactly for a dated reminder whose timestamp is after `now`, with permission granted; it carries the task id and title; a timer never arms one |
| Creacion.RutaSiguiente | src/pages/Tab1.tsx:97-104 | the next screen is the Pomodoro tab exactly for a timer of 25 minutes, otherwise the list tab |
| Creacion.Tab1.CrearTarea | src/pages/Tab1.tsx:38-105 | a rejected form changes neither the form nor the store; an accepted one appends exactly one task, whose id is the first clock reading, at the end of the loaded list, arms the notification against the second clock reading taken after the write, clears the text fields, and sets `pomodoroStart` exactly for the Pomodoro route |
| Creacion.CrearPreservaLista | src/pages/Tab1.tsx:55-67 | appending a created task keeps the list well-formed, and keeps ids unique when the clock is later than every stored id |
| Creacion.CeroEsPomodoro | src/pages/Tab1.tsx:62 | minutes text "0", and text that is no number ("abc"), yield a 25-minute timer and the Pomodoro route at any clock |
| Creacion.MinutosNegativos | src/pages/Tab1.tsx:62 | minutes text "-5" yields a -5-minute timer routed to the list, which shows 00:00 and which the first tick after its stamp completes |
| Creacion.VeinticincoMinutos | src/pages/Tab1.tsx:62 | minutes text "25" yields the Pomodoro route, and once stamped the timer is running with 1500 seconds left |
| Pomodoro.Paso | src/pages/Tab2.tsx:26-54 | running with time left, `minutes*60 + seconds` drops by exactly one without a period change; at 0:00 the clock stops, flips `isBreak` and shows 5:00 entering a break and 25:00 leaving one; paused, nothing changes; the bounds are kept |
| Pomodoro.EnRangoDetermina | src/pages/Tab2.tsx:29-34 | within bounds, minutes and seconds are the quotient and remainder of the measure by 60 |
| Pomodoro.CuentaRegresiva | src/pages/Tab2.tsx:27-34 | `n` running ticks, `n` at most the measure, lower it by `n` and keep the clock running, in bounds and in the same period |
| Pomodoro.Pasos | src/pages/Tab2.tsx:26-54 | any number of ticks keeps the clock in bounds, and leaves a paused clock as it is |
| Pomodoro.PasosSuma | src/pages/Tab2.tsx:26-54 | `a + b` ticks are `a` ticks followed by `b` ticks |
| Pomodoro.FinDePeriodo | src/pages/Tab2.tsx:37-41 | a running period ends after its remaining seconds plus one tick, stopped in the other period at that period's length |
| Pomodoro.Conmutar | src/pages/Tab2.tsx:56 | `startPause` flips `isRunning` and changes nothing else |
| Pomodoro.Reiniciar | src/pages/Tab2.tsx:58-63 | `reset` gives paused focus at 25:00 from any state, and a tick there does nothing |
| Pomodoro.ComandosEnRango | src/pages/Tab2.tsx:18-63 | start/pause (line 56), reset (lines 58-63) and the flag hand-over (lines 18-22) keep the clock in bounds |
| Pomodoro.ReiniciarIdempotente | src/pages/Tab2.tsx:58-63 | resetting twice is resetting once |
| Pomodoro.TrasInicio | src/pages/Tab2.tsx:18-22 | a stored `'true'` flag starts the clock; any other value leaves the state unchanged |
| Pomodoro.CuerpoTalCualInvertido | src/pages/Tab2.tsx:49 | as written, the notification text always announces the period that is not starting |
| Pomodoro.CuerpoAviso | src/pages/Tab2.tsx:49 | the corrected text, chosen from the period that ended, says to rest exactly after focus and to focus exactly after a break, and never equals the text as written |
| Pomodoro.CuerpoTalCual | src/pages/Tab2.tsx:49 | the text as written says to rest exactly when the period that just ended was a break |
| Pomodoro.AlarmaDe | src/pages/Tab2.tsx:43-52 | as written: an alarm (1000 ms vibration, notification with id `now` and the fixed title) is raised exactly at expiry, and its text says to rest exactly when focus is starting |
| Pomodoro.AlarmaCorregida | src/pages/Tab2.tsx:43-52 | corrected: the same alarm at the same moments, whose text says to rest exactly when a break is starting |
| Pomodoro.AlarmaDifiere | src/pages/Tab2.tsx:49 | at every expiry the alarm as written and the corrected one differ in their text and in nothing else |
| Pomodoro.Tab2.ConsumirInicio | src/pages/Tab2.tsx:17-24 | a `'true'` flag starts the clock and is removed from the store; any other value changes nothing |
| Pomodoro.Tab2.Tick | src/pages/Tab2.tsx:26-54 | the fields move as `Paso` says and the returned alarm is `AlarmaDe` of the old state, with the text as written |
| Pomodoro.Tab2.StartPause | src/pages/Tab2.tsx:56 | the fields move as `Conmutar` says |
| Pomodoro.Tab2.Reset | src/pages/Tab2.tsx:58-63 | the fields move as `Reiniciar` says |

## Findings

| source | as written | input that shows it | evidently intended | confidence | as-written member | corrected member |
|---|---|---|---|---|---|---|
| src/pages/Tab2.tsx:49 | the notification body is chosen from the value of `isBreak` before the flip, so it reads `'¡Hora de enfocarte!'` when a focus period ends and a break begins | running at 0:00 with `isBreak = false`: the clock switches to a 5:00 break while the notification says to focus | the notification announces the period that is starting: rest on entering a break, focus on leaving one | medium, not executed | Pomodoro.CuerpoTalCualInvertido | Pomodoro.CuerpoAviso |

`Pomodoro.AlarmaDe` and `Pomodoro.Tab2.Tick` follow the code as written.
`Pomodoro.AlarmaCorregida` is the alarm with the corrected text, and
`Pomodoro.AlarmaDifiere` shows that the two differ only in that text.

## Left out

- Rendering, styling, icons, toasts and navigation. Only the chosen route is
  recorded, as `Ruta`.
- The platform plugins (preferences, local notifications, haptics). The store is
  one object, notification and vibration requests are returned values, and the
  permission answer is a parameter.
- The race between asynchronous store writes, for example a tick write against a
  toggle or a delete. Each event is modelled as one atomic step.
- JSON encoding and decoding. The stored value is the list itself, and the tick's
  `JSON.stringify` comparison is structural list inequality. Parse failures are not
  handled by the code and are not modelled.
- Reading `fechaHora` as a timestamp, and the `es-ES` locale rendering of a reminder
  date. Both belong to the date library. The timestamp is the parameter `dueAt`, and
  the display is the opaque `FechaLocal` label.
- `setInterval` and `setTimeout` scheduling, and the clearing of pending timeouts.
  Each callback is one explicit step (`Tick`).
- The static build configuration (`capacitor.config.ts`).
- Text.ToNumber: `Number` is modelled only for integer text (JS whitespace around an
  optional sign and decimal digits). A fraction (`"2.5"`), a trailing point (`"5."`),
  an exponent (`"1e2"`), a `0x`, `0b` or `0o` prefix, and a signed or unsigned
  `Infinity` are all read as NaN. Such a minutes entry therefore gets the default 25,
  and with it the Pomodoro route. The source keeps the number instead.
- Text.ToNumber, Text.IntToString: JavaScript numbers are IEEE doubles, but the model
  uses unbounded integers. `Number` rounds integer text beyond 2^53, and `toString`
  writes magnitudes of 10^21 or more in exponent form (`"1e+21"`). The model reads
  and writes such numbers exactly. Clock values and ids are treated the same way.
- ListaTareas.IniciarTodas, ListaTareas.Reconciliar: the source calls `Date.now()`
  once per task inside each `map` (`src/pages/Tab3.tsx:30` and `:54`). The model
  uses one clock value for the whole pass. The reads happen within one synchronous
  pass, but they can differ by a millisecond, and the model does not capture that.
- CuentaAtras.FormatoTiempoRestante: non-integer stored minutes are outside the
  integer model.
