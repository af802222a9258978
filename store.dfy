/** The `Preferences` key-value store as the screens use it: the key `tareas` holds the
    whole task list (its JSON text is taken to be the list itself) and the key
    `pomodoroStart` holds the hand-over flag from the creation screen. */
module Storage {
  import opened Optional
  import opened Tareas

  class Store {
    /** `None` when the key `tareas` has never been written. */
    var tareas: Option<seq<Tarea>>
    var pomodoroStart: Option<string>

    constructor ()
      ensures tareas.None? && pomodoroStart.None?
    {
      tareas := None;
      pomodoroStart := None;
    }
  }

  /** `value ? JSON.parse(value) : []`: what a screen gets when it loads the list. */
  function Cargadas(v: Option<seq<Tarea>>): (r: seq<Tarea>)
    ensures v.Some? ==> Some(r) == v
    ensures v.None? ==> r == []
  {
    match v
    case None => []
    case Some(s) => s
  }
}
