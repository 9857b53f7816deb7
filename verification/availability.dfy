/**
 * `useRegistroDisponibilidad`: a teacher's selection of free time blocks and
 * preferred subjects for the active cycle, the hours the selection offers,
 * and the guards that run before the selection is saved.
 */
module Availability {
  import opened Common
  import opened Lists

  /** A wall-clock time as the backend sends it ("HH:MM:SS"). */
  datatype TimeOfDay = TimeOfDay(h: nat, m: nat, s: nat)

  type ClockTime = t: TimeOfDay | t.h < 24 && t.m < 60 && t.s < 60 witness TimeOfDay(0, 0, 0)

  /** One bookable block of the weekly grid; `dia_semana` 1 is Monday. */
  datatype Block = Block(id_bloque_horario: string, dia_semana: int, hora_inicio: ClockTime, hora_fin: ClockTime)

  /** The active cycle; only its scheduling state matters here. */
  datatype Ciclo = Ciclo(id_ciclo_academico: string, estado_horario: string)

  // ---------------------------------------------------------------------
  // The cycle lock
  // ---------------------------------------------------------------------

  /** The selection is frozen once the timetable is under review or official. */
  predicate Locked(ciclo: Option<Ciclo>) {
    ciclo.Some? && (ciclo.value.estado_horario == "EN REVISION" || ciclo.value.estado_horario == "OFICIAL")
  }

  /** `isEditable`: the banner and the disabled look depend on this, not on `Locked`. */
  predicate IsEditable(ciclo: Option<Ciclo>) {
    ciclo.Some? && ciclo.value.estado_horario == "PLANIFICACION"
  }

  /**
   * An editable cycle is never locked, but the converse fails: with no cycle,
   * or with any state other than the three named ones, toggling still works
   * although the page shows the selection as read-only.
   */
  lemma EditableIsNarrowerThanUnlocked()
    ensures forall c :: IsEditable(c) ==> !Locked(c)
    ensures !IsEditable(None) && !Locked(None)
    ensures var c := Some(Ciclo("", "CERRADO")); !IsEditable(c) && !Locked(c)
  {
  }

  // ---------------------------------------------------------------------
  // Selection toggles
  // ---------------------------------------------------------------------

  predicate NoDup(s: seq<string>) {
    forall i, j :: 0 <= i < j < |s| ==> s[i] != s[j]
  }

  /** `prev.includes(id) ? prev.filter(x => x !== id) : [...prev, id]`. */
  function Toggle(prev: seq<string>, id: string): (r: seq<string>)
    ensures id in r <==> id !in prev
    ensures forall x :: x != id ==> (x in r <==> x in prev)
    ensures id in prev ==> |r| < |prev|
    ensures id !in prev ==> r == prev + [id]
  {
    if id in prev then
      var keep := x => x != id;
      FilterMembers(prev, keep);
      var r := Filter(prev, keep);
      assert |r| < |prev| by {
        var k :| 0 <= k < |prev| && prev[k] == id;
        FilterDropsOne(prev, id, k);
      }
      r
    else prev + [id]
  }

  lemma {:induction false} FilterDropsOne(s: seq<string>, id: string, k: nat)
    requires k < |s| && s[k] == id
    ensures |Filter(s, x => x != id)| < |s|
    decreases |s|
  {
    if k > 0 {
      FilterDropsOne(s[1..], id, k - 1);
    }
  }

  /** Toggling keeps a duplicate-free selection duplicate-free. */
  lemma ToggleKeepsNoDup(prev: seq<string>, id: string)
    requires NoDup(prev)
    ensures NoDup(Toggle(prev, id))
  {
    if id in prev {
      FilterKeepsNoDup(prev, x => x != id);
    }
  }

  lemma {:induction false} FilterKeepsNoDup(s: seq<string>, p: string -> bool)
    requires NoDup(s)
    ensures NoDup(Filter(s, p))
    decreases |s|
  {
    if |s| > 0 {
      FilterKeepsNoDup(s[1..], p);
      FilterMembers(s[1..], p);
      var rest := Filter(s[1..], p);
      if p(s[0]) {
        assert s[0] !in s[1..];
        assert s[0] !in rest;
        assert Filter(s, p) == [s[0]] + rest;
      }
    }
  }

  /**
   * Toggling the same id twice restores every membership, and restores the
   * very list when the id was not selected.
   */
  lemma ToggleTwice(prev: seq<string>, id: string)
    ensures forall x :: x in Toggle(Toggle(prev, id), id) <==> x in prev
    ensures id !in prev ==> Toggle(Toggle(prev, id), id) == prev
  {
    if id !in prev {
      FilterKeepsAll(prev, x => x != id);
      FilterAppend(prev, [id], x => x != id);
    }
  }

  // ---------------------------------------------------------------------
  // Offered hours
  // ---------------------------------------------------------------------

  /** `calcularHoras` in minutes: hours and minutes of each time, seconds ignored. */
  function Minutes(t: ClockTime): nat {
    t.h * 60 + t.m
  }

  function BlockMinutes(b: Block): int {
    Minutes(b.hora_fin) - Minutes(b.hora_inicio)
  }

  predicate HasBlockId(b: Block, id: string) {
    b.id_bloque_horario == id
  }

  /** What one selected id adds: the length of the first block with that id, or nothing. */
  function Contribution(bloques: seq<Block>, id: string): (m: int)
    ensures (forall i :: 0 <= i < |bloques| ==> !HasBlockId(bloques[i], id)) ==> m == 0
    ensures forall i :: (0 <= i < |bloques| && HasBlockId(bloques[i], id)
                         && forall j :: 0 <= j < i ==> !HasBlockId(bloques[j], id)) ==> m == BlockMinutes(bloques[i])
  {
    match FindIndex(bloques, b => HasBlockId(b, id))
    case None => 0
    case Some(i) => BlockMinutes(bloques[i])
  }

  /** The offered time, in minutes, of a selection taken in order. */
  function OfferedMinutes(bloques: seq<Block>, sel: seq<string>): int {
    if |sel| == 0 then 0
    else OfferedMinutes(bloques, sel[..|sel| - 1]) + Contribution(bloques, sel[|sel| - 1])
  }

  /** The offered time is additive over the selection. */
  lemma {:induction false} OfferedMinutesAppend(bloques: seq<Block>, a: seq<string>, b: seq<string>)
    ensures OfferedMinutes(bloques, a + b) == OfferedMinutes(bloques, a) + OfferedMinutes(bloques, b)
    decreases |b|
  {
    if |b| == 0 {
      assert a + b == a;
    } else {
      assert (a + b)[..|a + b| - 1] == a + b[..|b| - 1];
      OfferedMinutesAppend(bloques, a, b[..|b| - 1]);
    }
  }

  /** Selecting a further id adds exactly its block's length. */
  lemma ToggleOnAddsItsBlock(bloques: seq<Block>, sel: seq<string>, id: string)
    requires id !in sel
    ensures OfferedMinutes(bloques, Toggle(sel, id)) == OfferedMinutes(bloques, sel) + Contribution(bloques, id)
  {
    assert (sel + [id])[..|sel|] == sel;
  }

  /** An empty catalogue offers nothing, whatever is selected. */
  lemma {:induction false} EmptyCatalogueOffersNothing(sel: seq<string>)
    ensures OfferedMinutes([], sel) == 0
    decreases |sel|
  {
    if |sel| > 0 {
      EmptyCatalogueOffersNothing(sel[..|sel| - 1]);
    }
  }

  /** Well-formed blocks (end not before start) never make the total negative. */
  lemma {:induction false} OfferedMinutesNonNegative(bloques: seq<Block>, sel: seq<string>)
    requires forall i :: 0 <= i < |bloques| ==> BlockMinutes(bloques[i]) >= 0
    ensures OfferedMinutes(bloques, sel) >= 0
    decreases |sel|
  {
    if |sel| > 0 {
      OfferedMinutesNonNegative(bloques, sel[..|sel| - 1]);
      var id := sel[|sel| - 1];
      match FindIndex(bloques, b => HasBlockId(b, id))
      case None =>
      case Some(i) =>
    }
  }

  /**
   * `parseFloat(hours.toFixed(1))` for a time of `m` minutes, in tenths of an
   * hour: the nearest multiple of six minutes, a tie going away from zero.
   */
  function RoundToTenth(m: int): (t: int)
    ensures m >= 0 ==> 6 * t - 3 <= m < 6 * t + 3
    ensures m < 0 ==> 6 * t - 3 < m <= 6 * t + 3
  {
    if m >= 0 then (m + 3) / 6 else -((3 - m) / 6)
  }

  /**
   * `horasOfrecidas`, in tenths of an hour: an empty catalogue gives 0;
   * otherwise the selected ids are visited in order, each adding its
   * block's length, and the total is rounded to one decimal.
   */
  method HorasOfrecidas(bloques: seq<Block>, sel: seq<string>) returns (tenths: int)
    ensures tenths == RoundToTenth(OfferedMinutes(bloques, sel))
  {
    if |bloques| == 0 {
      EmptyCatalogueOffersNothing(sel);
      return 0;
    }
    var total := 0;
    var i := 0;
    while i < |sel|
      invariant 0 <= i <= |sel|
      invariant total == OfferedMinutes(bloques, sel[..i])
    {
      var found := FindIndex(bloques, b => HasBlockId(b, sel[i]));
      if found.Some? {
        total := total + BlockMinutes(bloques[found.value]);
      }
      assert sel[..i + 1][..i] == sel[..i];
      i := i + 1;
    }
    assert sel[..i] == sel;
    tenths := RoundToTenth(total);
  }

  // ---------------------------------------------------------------------
  // Saving
  // ---------------------------------------------------------------------

  const NoSubjectsMessage: string := "Debes seleccionar al menos una materia de preferencia."
  const SavedMessage: string := "\U{00A1}Tus preferencias han sido guardadas exitosamente!"

  /**
   * The notification banner; the short-hours text is kept as its two
   * numbers, the offered hours in tenths.
   */
  datatype Notice =
    | ShortHours(cargaMinima: int, offeredTenths: int)
    | Message(text: string, isError: bool)

  datatype Notification = Hidden | Shown(notice: Notice)

  /**
   * The guards of `handleGuardar`, in order: a positive minimum load not
   * reached, then an empty subject selection. None lets the save go ahead.
   */
  function GuardarCheck(cargaMinima: int, offeredTenths: int, asignaturas: seq<string>): (r: Option<Notice>)
    ensures r.None? <==> (cargaMinima <= 0 || offeredTenths >= cargaMinima * 10) && |asignaturas| > 0
    ensures cargaMinima > 0 && offeredTenths < cargaMinima * 10 ==> r == Some(ShortHours(cargaMinima, offeredTenths))
    ensures (cargaMinima <= 0 || offeredTenths >= cargaMinima * 10) && |asignaturas| == 0 ==>
              r == Some(Message(NoSubjectsMessage, true))
  {
    if cargaMinima > 0 && offeredTenths < cargaMinima * 10 then Some(ShortHours(cargaMinima, offeredTenths))
    else if |asignaturas| == 0 then Some(Message(NoSubjectsMessage, true))
    else None
  }

  /** With no minimum load only the subject guard remains. */
  lemma ZeroMinimumSkipsHoursGuard(offeredTenths: int, asignaturas: seq<string>)
    ensures GuardarCheck(0, offeredTenths, asignaturas).None? <==> |asignaturas| > 0
  {
  }

  /**
   * Because the total is rounded before the comparison, a positive minimum
   * of `c` hours refuses a selection of `m` minutes exactly when `m` is more
   * than three minutes short of `c` hours: 478 minutes pass a minimum of 8.
   */
  lemma ShortHoursUsesRoundedTotal(cargaMinima: int, m: int, asignaturas: seq<string>)
    requires cargaMinima > 0
    ensures (var r := GuardarCheck(cargaMinima, RoundToTenth(m), asignaturas);
             r.Some? && r.value.ShortHours?) <==> m < 60 * cargaMinima - 3
    ensures GuardarCheck(8, RoundToTenth(478), ["x"]).None?
  {
    var t := RoundToTenth(m);
    if m >= 0 {
      assert t < cargaMinima * 10 <==> t <= cargaMinima * 10 - 1;
    }
    assert RoundToTenth(478) == 80;
  }

  class AvailabilityForm {
    var cargaMinima: int
    var ciclo: Option<Ciclo>
    var bloques: seq<Block>
    var bloquesSeleccionados: seq<string>
    var asignaturasSeleccionadas: seq<string>
    var isSaving: bool
    var notification: Notification

    /** The state once the teacher, cycle, catalogue and saved selections are loaded. */
    constructor (cargaMinima: int, ciclo: Option<Ciclo>, bloques: seq<Block>,
                 bloquesSeleccionados: seq<string>, asignaturasSeleccionadas: seq<string>)
      ensures this.cargaMinima == cargaMinima && this.ciclo == ciclo && this.bloques == bloques
      ensures this.bloquesSeleccionados == bloquesSeleccionados
      ensures this.asignaturasSeleccionadas == asignaturasSeleccionadas
      ensures !isSaving && notification == Hidden
    {
      this.cargaMinima := cargaMinima;
      this.ciclo := ciclo;
      this.bloques := bloques;
      this.bloquesSeleccionados := bloquesSeleccionados;
      this.asignaturasSeleccionadas := asignaturasSeleccionadas;
      isSaving := false;
      notification := Hidden;
    }

    /** `toggleBloque(id)`: a locked cycle changes nothing. */
    method ToggleBloque(id: string)
      modifies this
      ensures Locked(ciclo) ==> bloquesSeleccionados == old(bloquesSeleccionados)
      ensures !Locked(ciclo) ==> bloquesSeleccionados == Toggle(old(bloquesSeleccionados), id)
      ensures NoDup(old(bloquesSeleccionados)) ==> NoDup(bloquesSeleccionados)
      ensures asignaturasSeleccionadas == old(asignaturasSeleccionadas)
      ensures cargaMinima == old(cargaMinima) && ciclo == old(ciclo) && bloques == old(bloques)
      ensures isSaving == old(isSaving) && notification == old(notification)
    {
      if Locked(ciclo) {
        return;
      }
      if NoDup(bloquesSeleccionados) {
        ToggleKeepsNoDup(bloquesSeleccionados, id);
      }
      bloquesSeleccionados := Toggle(bloquesSeleccionados, id);
    }

    /** `toggleAsignatura(id)`: a locked cycle changes nothing. */
    method ToggleAsignatura(id: string)
      modifies this
      ensures Locked(ciclo) ==> asignaturasSeleccionadas == old(asignaturasSeleccionadas)
      ensures !Locked(ciclo) ==> asignaturasSeleccionadas == Toggle(old(asignaturasSeleccionadas), id)
      ensures NoDup(old(asignaturasSeleccionadas)) ==> NoDup(asignaturasSeleccionadas)
      ensures bloquesSeleccionados == old(bloquesSeleccionados)
      ensures cargaMinima == old(cargaMinima) && ciclo == old(ciclo) && bloques == old(bloques)
      ensures isSaving == old(isSaving) && notification == old(notification)
    {
      if Locked(ciclo) {
        return;
      }
      if NoDup(asignaturasSeleccionadas) {
        ToggleKeepsNoDup(asignaturasSeleccionadas, id);
      }
      asignaturasSeleccionadas := Toggle(asignaturasSeleccionadas, id);
    }

    /**
     * The synchronous part of `handleGuardar`: a failed guard shows its
     * notice and stops; otherwise saving starts and the notice is cleared.
     */
    method HandleGuardar() returns (started: bool)
      modifies this
      ensures var check := GuardarCheck(cargaMinima, RoundToTenth(OfferedMinutes(bloques, bloquesSeleccionados)),
                                        asignaturasSeleccionadas);
              && (started <==> check.None?)
              && (check.Some? ==> notification == Shown(check.value) && isSaving == old(isSaving))
              && (check.None? ==> notification == Hidden && isSaving)
      ensures cargaMinima == old(cargaMinima) && ciclo == old(ciclo) && bloques == old(bloques)
      ensures bloquesSeleccionados == old(bloquesSeleccionados)
      ensures asignaturasSeleccionadas == old(asignaturasSeleccionadas)
    {
      var offered := HorasOfrecidas(bloques, bloquesSeleccionados);
      var check := GuardarCheck(cargaMinima, offered, asignaturasSeleccionadas);
      if check.Some? {
        notification := Shown(check.value);
        return false;
      }
      isSaving := true;
      notification := Hidden;
      started := true;
    }

    /** The end of a started save: the outcome is announced and saving stops. */
    method FinishGuardar(error: Option<string>)
      modifies this
      ensures !isSaving
      ensures error.None? ==> notification == Shown(Message(SavedMessage, false))
      ensures error.Some? ==>
                notification == Shown(Message(if error.value != "" then error.value else "Error al guardar los datos.", true))
      ensures cargaMinima == old(cargaMinima) && ciclo == old(ciclo) && bloques == old(bloques)
      ensures bloquesSeleccionados == old(bloquesSeleccionados)
      ensures asignaturasSeleccionadas == old(asignaturasSeleccionadas)
    {
      if error.None? {
        notification := Shown(Message(SavedMessage, false));
      } else {
        notification := Shown(Message(if error.value != "" then error.value else "Error al guardar los datos.", true));
      }
      isSaving := false;
    }
  }
}
