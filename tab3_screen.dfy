/** The list screen (`Tab3`): its in-memory `tareas` state and the writes it makes to
    the store. Each method is one event: entering the screen, one second passing, a
    tap on a task, a swipe-delete. */
module PantallaTareas {
  import opened Optional
  import opened Tareas
  import opened Storage
  import opened ListaTareas

  class Tab3 {
    var tareas: seq<Tarea>
    const store: Store

    constructor (store: Store)
      ensures this.store == store && tareas == []
    {
      this.store := store;
      tareas := [];
    }

    /** `cargarTareas`: load, stamp start times, show, and write back unconditionally. */
    method CargarTareas(now: int)
      modifies this, store
      ensures tareas == IniciarTodas(Cargadas(old(store.tareas)), now)
      ensures store.tareas == Some(tareas) && store.pomodoroStart == old(store.pomodoroStart)
    {
      var tareasGuardadas := Cargadas(store.tareas);
      var tareasActualizadas := IniciarTodas(tareasGuardadas, now);
      tareas := tareasActualizadas;
      store.tareas := Some(tareasActualizadas);
    }

    /** One run of the `setInterval` body: reconcile the shown list, and write it back
        only when it changed, which is exactly when some timer expired. */
    method Tick(now: int) returns (cambio: bool)
      modifies this, store
      ensures tareas == Reconciliar(old(tareas), now)
      ensures cambio == (tareas != old(tareas))
      ensures cambio <==> exists i :: 0 <= i < |old(tareas)| && Vence(old(tareas)[i], now)
      ensures store.tareas == (if cambio then Some(tareas) else old(store.tareas))
      ensures store.pomodoroStart == old(store.pomodoroStart)
    {
      var prev := tareas;
      var actualizadas := Reconciliar(prev, now);
      ReconciliarCambia(prev, now);
      cambio := prev != actualizadas;
      if cambio {
        store.tareas := Some(actualizadas);
      }
      tareas := actualizadas;
    }

    /** `toggleCompletada(id)`. */
    method ToggleCompletada(id: int)
      modifies this, store
      ensures tareas == Alternar(old(tareas), id)
      ensures store.tareas == Some(tareas) && store.pomodoroStart == old(store.pomodoroStart)
    {
      var nuevas := Alternar(tareas, id);
      tareas := nuevas;
      store.tareas := Some(nuevas);
    }

    /** `borrarTarea(id)`. */
    method BorrarTarea(id: int)
      modifies this, store
      ensures tareas == Borrar(old(tareas), id)
      ensures store.tareas == Some(tareas) && store.pomodoroStart == old(store.pomodoroStart)
    {
      var nuevas := Borrar(tareas, id);
      tareas := nuevas;
      store.tareas := Some(nuevas);
    }
  }

  /** A client run of the list screen: a one-minute timer started 61 seconds ago is
      left alone by loading, and the next tick completes it and writes the list. */
  method EjemploVencido(now: int)
    requires now > 61000
  {
    var store := new Store();
    var t := Tarea(1, "Focus", Temporizador, None, Some(1), false, Some(now - 61000));
    store.tareas := Some([t]);
    var pantalla := new Tab3(store);
    pantalla.CargarTareas(now);
    assert pantalla.tareas == [t];
    var cambio := pantalla.Tick(now);
    assert Vence(t, now);
    assert cambio && pantalla.tareas == [t.(completada := true)];
    assert store.tareas == Some([t.(completada := true)]);
  }
}
