/** The task record every screen shares, and the shape a well-formed stored list has. */
module Tareas {
  import opened Optional
  import Text

  /** `tipo: 'recordatorio' | 'temporizador'`. */
  datatype Tipo = Recordatorio | Temporizador

  /** One stored task. Times are milliseconds since the epoch; `fechaHora` is the
      date-picker text of a reminder, `minutos` the duration of a timer, and
      `tiempoInicio` the moment the list screen first saw a timer running. */
  datatype Tarea = Tarea(
    id: int,
    titulo: string,
    tipo: Tipo,
    fechaHora: Option<string>,
    minutos: Option<int>,
    completada: bool,
    tiempoInicio: Option<int>)

  /** JavaScript truthiness of an optional number: present and not 0. */
  predicate Truthy(n: Option<int>) {
    n.Some? && n.value != 0
  }

  /** JavaScript truthiness of an optional string: present and not empty. */
  predicate TruthyText(s: Option<string>) {
    s.Some? && s.value != []
  }

  /** A task as the creation screen builds it and the other screens keep it: a trimmed,
      non-empty title; a reminder has a date and neither duration nor start time; a
      timer has a non-zero duration and no date. */
  predicate TareaValida(t: Tarea) {
    && t.titulo != [] && Text.Trim(t.titulo) == t.titulo
    && (t.tipo == Recordatorio ==> TruthyText(t.fechaHora) && t.minutos.None? && t.tiempoInicio.None?)
    && (t.tipo == Temporizador ==> t.fechaHora.None? && Truthy(t.minutos))
  }

  predicate TodasValidas(s: seq<Tarea>) {
    forall i :: 0 <= i < |s| ==> TareaValida(s[i])
  }

  /** No two tasks of the list share an id. */
  predicate IdsUnicos(s: seq<Tarea>) {
    forall i, j :: 0 <= i < j < |s| ==> s[i].id != s[j].id
  }

  /** Some task of the list has this id. */
  predicate TieneId(s: seq<Tarea>, id: int) {
    exists i :: 0 <= i < |s| && s[i].id == id
  }
}
