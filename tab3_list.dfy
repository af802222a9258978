/** The list-screen rules as functions on the whole list: stamping start times on
    load, the one-second reconcile of expired timers, toggling and deleting by id. */
module ListaTareas {
  import opened Optional
  import opened Tareas

  // ----- Start stamping on load -----

  /** A timer with no (truthy) start time that is not yet completed. */
  predicate NecesitaInicio(t: Tarea) {
    t.tipo == Temporizador && !Truthy(t.tiempoInicio) && !t.completada
  }

  /** Stamping one task: only a task that needs it gets `now` as its start time, nothing
      else changes, and with a non-zero clock it no longer needs a stamp. */
  function Iniciar(t: Tarea, now: int): (r: Tarea)
    ensures NecesitaInicio(t) ==> r.tiempoInicio == Some(now)
    ensures !NecesitaInicio(t) ==> r == t
    ensures r == t.(tiempoInicio := r.tiempoInicio)
    ensures now != 0 ==> !NecesitaInicio(r)
  {
    if NecesitaInicio(t) then t.(tiempoInicio := Some(now)) else t
  }

  /** The `map` of `cargarTareas`: stamps `now` on every timer that needs it. */
  function IniciarTodas(s: seq<Tarea>, now: int): (r: seq<Tarea>)
    ensures |r| == |s|
  {
    if s == [] then [] else [Iniciar(s[0], now)] + IniciarTodas(s[1..], now)
  }

  /** Task `i` gets `tiempoInicio = now` exactly when it needs a start; otherwise it is
      returned as it was, and no other field changes either way. */
  lemma {:induction false} IniciarTodasAt(s: seq<Tarea>, now: int, i: int)
    requires 0 <= i < |s|
    ensures var r := IniciarTodas(s, now);
      && (r[i].tiempoInicio == Some(now) || r[i] == s[i])
      && (r[i] != s[i] <==> NecesitaInicio(s[i]) && s[i].tiempoInicio != Some(now))
      && (NecesitaInicio(s[i]) ==> r[i].tiempoInicio == Some(now))
      && r[i] == s[i].(tiempoInicio := r[i].tiempoInicio)
  {
    if i > 0 {
      IniciarTodasAt(s[1..], now, i - 1);
    }
  }

  /** A start time, once stamped with a non-zero clock, is never stamped again: loading
      the list a second time, at any later moment, changes nothing. */
  lemma {:induction false} IniciarTodasUnaVez(s: seq<Tarea>, now: int, later: int)
    requires now != 0
    ensures IniciarTodas(IniciarTodas(s, now), later) == IniciarTodas(s, now)
  {
    if s != [] {
      IniciarTodasUnaVez(s[1..], now, later);
    }
  }

  // ----- The one-second reconcile -----

  /** `Math.floor((Date.now() - tiempoInicio) / 1000)`: whole seconds elapsed. Dafny's `/`
      by a positive divisor rounds down, as `Math.floor` does. */
  function Transcurridos(now: int, inicio: int): (r: int)
    ensures r * 1000 <= now - inicio < r * 1000 + 1000
  {
    (now - inicio) / 1000
  }

  /** The shared guard of the tick and of the countdown display: a timer with truthy
      minutes and start time that is not completed. */
  predicate Activo(t: Tarea)
    ensures Activo(t) ==> t.minutos.Some? && t.minutos.value != 0
    ensures Activo(t) ==> t.tiempoInicio.Some? && t.tiempoInicio.value != 0
  {
    t.tipo == Temporizador && Truthy(t.minutos) && Truthy(t.tiempoInicio) && !t.completada
  }

  /** `minutos * 60 - transcurridoSegundos`, before any clamping. */
  function RestantesBrutos(t: Tarea, now: int): (r: int)
    requires t.minutos.Some? && t.tiempoInicio.Some?
    ensures r <= 0 <==> now - t.tiempoInicio.value >= t.minutos.value * 60000
    ensures now == t.tiempoInicio.value ==> r == t.minutos.value * 60
  {
    t.minutos.value * 60 - Transcurridos(now, t.tiempoInicio.value)
  }

  /** The tick completes this task at `now`. */
  predicate Vence(t: Tarea, now: int)
    ensures Vence(t, now) <==>
      Activo(t) && now - t.tiempoInicio.value >= t.minutos.value * 60000
  {
    Activo(t) && RestantesBrutos(t, now) <= 0
  }

  /** Reconciling one task: it ends completed exactly when it was or it expires, and
      nothing else changes. */
  function Reconciliar1(t: Tarea, now: int): (r: Tarea)
    ensures r.completada <==> t.completada || Vence(t, now)
    ensures r == t.(completada := r.completada)
  {
    if Vence(t, now) then t.(completada := true) else t
  }

  /** The `map` inside the `setInterval` body. */
  function Reconciliar(s: seq<Tarea>, now: int): (r: seq<Tarea>)
    ensures |r| == |s|
  {
    if s == [] then [] else [Reconciliar1(s[0], now)] + Reconciliar(s[1..], now)
  }

  /** Task `i` is completed afterwards exactly when it was, or it expired at `now`; no
      other field changes. */
  lemma {:induction false} ReconciliarAt(s: seq<Tarea>, now: int, i: int)
    requires 0 <= i < |s|
    ensures var r := Reconciliar(s, now);
      && (r[i].completada <==> s[i].completada || Vence(s[i], now))
      && r[i] == s[i].(completada := r[i].completada)
  {
    if i > 0 {
      ReconciliarAt(s[1..], now, i - 1);
    }
  }

  /** The tick never un-completes a task and never touches a reminder. */
  lemma ReconciliarMonotono(s: seq<Tarea>, now: int)
    ensures forall i :: 0 <= i < |s| && s[i].completada ==> Reconciliar(s, now)[i] == s[i]
    ensures forall i :: 0 <= i < |s| && s[i].tipo == Recordatorio ==> Reconciliar(s, now)[i] == s[i]
  {
    forall i | 0 <= i < |s| {
      ReconciliarAt(s, now, i);
    }
  }

  /** Reconciling twice with the same clock gives what reconciling once gave. */
  lemma {:induction false} ReconciliarIdempotente(s: seq<Tarea>, now: int)
    ensures Reconciliar(Reconciliar(s, now), now) == Reconciliar(s, now)
  {
    if s != [] {
      ReconciliarIdempotente(s[1..], now);
    }
  }

  /** The list changes, and so gets written back, exactly when some task expires. */
  lemma {:induction false} ReconciliarCambia(s: seq<Tarea>, now: int)
    ensures Reconciliar(s, now) != s <==> exists i :: 0 <= i < |s| && Vence(s[i], now)
  {
    if s != [] {
      ReconciliarCambia(s[1..], now);
      var r := Reconciliar(s, now);
      assert r[1..] == Reconciliar(s[1..], now);
      if r != s {
        if !Vence(s[0], now) {
          assert r[1..] != s[1..];
          var j :| 0 <= j < |s[1..]| && Vence(s[1..][j], now);
          assert Vence(s[j + 1], now);
        }
      } else {
        forall i | 0 <= i < |s| ensures !Vence(s[i], now) {
          ReconciliarAt(s, now, i);
        }
      }
    }
  }

  // ----- Toggle and delete by id -----

  /** Toggling one task: `completada` flips exactly when the id matches, nothing else
      changes. */
  function Alternar1(t: Tarea, id: int): (r: Tarea)
    ensures r.completada != t.completada <==> t.id == id
    ensures r == t.(completada := r.completada)
  {
    if t.id == id then t.(completada := !t.completada) else t
  }

  /** The `map` of `toggleCompletada`. */
  function Alternar(s: seq<Tarea>, id: int): (r: seq<Tarea>)
    ensures |r| == |s|
  {
    if s == [] then [] else [Alternar1(s[0], id)] + Alternar(s[1..], id)
  }

  /** Only tasks with this id change, and only in `completada`, which flips. */
  lemma {:induction false} AlternarAt(s: seq<Tarea>, id: int, i: int)
    requires 0 <= i < |s|
    ensures var r := Alternar(s, id);
      && (r[i].completada <==> (s[i].completada != (s[i].id == id)))
      && r[i] == s[i].(completada := r[i].completada)
  {
    if i > 0 {
      AlternarAt(s[1..], id, i - 1);
    }
  }

  /** Toggling the same id twice restores the list. */
  lemma {:induction false} AlternarDosVeces(s: seq<Tarea>, id: int)
    ensures Alternar(Alternar(s, id), id) == s
  {
    if s != [] {
      AlternarDosVeces(s[1..], id);
    }
  }

  /** The `filter` of `borrarTarea`. */
  function Borrar(s: seq<Tarea>, id: int): (r: seq<Tarea>)
    ensures |r| <= |s|
  {
    if s == [] then [] else (if s[0].id == id then [] else [s[0]]) + Borrar(s[1..], id)
  }

  /** A task survives exactly when it was in the list with a different id. */
  lemma {:induction false} BorrarMiembros(s: seq<Tarea>, id: int, t: Tarea)
    ensures t in Borrar(s, id) <==> t in s && t.id != id
  {
    if s != [] {
      BorrarMiembros(s[1..], id, t);
      assert s == [s[0]] + s[1..];
    }
  }

  /** Deleting from a concatenation deletes from each part: the survivors keep their
      relative order. */
  lemma {:induction false} BorrarConcat(a: seq<Tarea>, b: seq<Tarea>, id: int)
    ensures Borrar(a + b, id) == Borrar(a, id) + Borrar(b, id)
  {
    if a != [] {
      assert (a + b)[0] == a[0];
      assert (a + b)[1..] == a[1..] + b;
      BorrarConcat(a[1..], b, id);
    } else {
      assert a + b == b;
    }
  }

  /** Number of tasks with this id. */
  function ContarId(s: seq<Tarea>, id: int): nat {
    if s == [] then 0 else (if s[0].id == id then 1 else 0) + ContarId(s[1..], id)
  }

  /** Deleting removes exactly the tasks carrying the id. */
  lemma {:induction false} BorrarLongitud(s: seq<Tarea>, id: int)
    ensures |Borrar(s, id)| == |s| - ContarId(s, id)
  {
    if s != [] {
      BorrarLongitud(s[1..], id);
    }
  }

  /** With unique ids, an id occurs once if present and not at all otherwise. */
  lemma {:induction false} ContarIdUnico(s: seq<Tarea>, id: int)
    requires IdsUnicos(s)
    ensures ContarId(s, id) == if TieneId(s, id) then 1 else 0
  {
    if s != [] {
      assert IdsUnicos(s[1..]) by {
        forall i, j | 0 <= i < j < |s[1..]| ensures s[1..][i].id != s[1..][j].id {
          assert s[1..][i] == s[i + 1] && s[1..][j] == s[j + 1];
        }
      }
      ContarIdUnico(s[1..], id);
      if s[0].id == id {
        assert !TieneId(s[1..], id) by {
          forall k | 0 <= k < |s[1..]| ensures s[1..][k].id != id {
            assert s[1..][k] == s[k + 1];
          }
        }
      } else {
        if TieneId(s, id) {
          var k :| 0 <= k < |s| && s[k].id == id;
          assert s[1..][k - 1] == s[k];
        }
        if TieneId(s[1..], id) {
          var k :| 0 <= k < |s[1..]| && s[1..][k].id == id;
          assert s[k + 1] == s[1..][k];
        }
      }
    }
  }

  /** With unique ids, deleting a present id shortens the list by one; deleting an
      absent id leaves the list as it was. */
  lemma BorrarUnico(s: seq<Tarea>, id: int)
    requires IdsUnicos(s)
    ensures TieneId(s, id) ==> |Borrar(s, id)| == |s| - 1
    ensures !TieneId(s, id) ==> Borrar(s, id) == s
  {
    BorrarLongitud(s, id);
    ContarIdUnico(s, id);
    if !TieneId(s, id) {
      BorrarAusente(s, id);
    }
  }

  lemma {:induction false} BorrarAusente(s: seq<Tarea>, id: int)
    requires !TieneId(s, id)
    ensures Borrar(s, id) == s
  {
    if s != [] {
      assert !TieneId(s[1..], id) by {
        forall k | 0 <= k < |s[1..]| ensures s[1..][k].id != id {
          assert s[1..][k] == s[k + 1];
        }
      }
      BorrarAusente(s[1..], id);
      assert s[0].id != id;
    }
  }

  // ----- The list shape every operation keeps -----

  /** Stamping, reconciling and toggling change neither ids nor the fields that make a
      task well-formed, and deleting keeps a sub-list; so a list of well-formed tasks
      with unique ids stays one. */
  lemma OperacionesPreservanLista(s: seq<Tarea>, now: int, id: int)
    requires TodasValidas(s) && IdsUnicos(s)
    ensures TodasValidas(IniciarTodas(s, now)) && IdsUnicos(IniciarTodas(s, now))
    ensures TodasValidas(Reconciliar(s, now)) && IdsUnicos(Reconciliar(s, now))
    ensures TodasValidas(Alternar(s, id)) && IdsUnicos(Alternar(s, id))
    ensures TodasValidas(Borrar(s, id)) && IdsUnicos(Borrar(s, id))
  {
    var a, b, c := IniciarTodas(s, now), Reconciliar(s, now), Alternar(s, id);
    forall i | 0 <= i < |s|
      ensures TareaValida(a[i]) && a[i].id == s[i].id
      ensures TareaValida(b[i]) && b[i].id == s[i].id
      ensures TareaValida(c[i]) && c[i].id == s[i].id
    {
      IniciarTodasAt(s, now, i);
      ReconciliarAt(s, now, i);
      AlternarAt(s, id, i);
    }
    BorrarPreserva(s, id);
  }

  lemma BorrarPreserva(s: seq<Tarea>, id: int)
    requires TodasValidas(s) && IdsUnicos(s)
    ensures TodasValidas(Borrar(s, id)) && IdsUnicos(Borrar(s, id))
  {
    var r := Borrar(s, id);
    forall i | 0 <= i < |r| ensures TareaValida(r[i]) {
      BorrarMiembros(s, id, r[i]);
    }
    BorrarUnicos(s, id);
  }

  lemma {:induction false} BorrarUnicos(s: seq<Tarea>, id: int)
    requires IdsUnicos(s)
    ensures IdsUnicos(Borrar(s, id))
  {
    if s != [] {
      var t := s[1..];
      assert IdsUnicos(t) by {
        forall i, j | 0 <= i < j < |t| ensures t[i].id != t[j].id {
          assert t[i] == s[i + 1] && t[j] == s[j + 1];
        }
      }
      BorrarUnicos(t, id);
      var r := Borrar(t, id);
      if s[0].id != id {
        forall u | u in r ensures u.id != s[0].id {
          BorrarMiembros(t, id, u);
          var k :| 0 <= k < |t| && t[k] == u;
          assert s[k + 1] == u;
        }
        UnicosCons(s[0], r);
      }
    }
  }

  lemma UnicosCons(x: Tarea, r: seq<Tarea>)
    requires IdsUnicos(r) && forall u :: u in r ==> u.id != x.id
    ensures IdsUnicos([x] + r)
  {
    var c := [x] + r;
    forall i, j | 0 <= i < j < |c| ensures c[i].id != c[j].id {
      assert c[j] == r[j - 1];
      if i > 0 { assert c[i] == r[i - 1]; }
    }
  }
}
