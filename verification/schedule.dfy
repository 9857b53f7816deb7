/**
 * The class-timetable store of `useHorario`: the placed classes, the class
 * being dragged, the add/edit modal, and the conflict check that gates every
 * write to the timetable.
 */
module Schedule {
  import opened Common
  import opened Lists

  /**
   * A placed class. `dia` and `hora_inicio` name its cell. Text fields a
   * draft has not set yet are the empty string. The career id comes from
   * `parseInt`, so it may be NaN.
   */
  datatype Clase = Clase(
    id_clase: string,
    nombre_asignatura: string,
    nombre_docente: string,
    nombre_aula: string,
    codigo_seccion: string,
    color: string,
    id_carrera: Field,
    dia: string,
    hora_inicio: string)

  const CareerTakenMessage: string := "Este horario ya est\U{00E1} ocupado en esta carrera."

  function RoomTakenMessage(aula: string): (m: string)
    ensures |m| > 8 + |aula| && m[..8] == "El aula " && m[8..8 + |aula|] == aula
  {
    "El aula " + aula + " ya est\U{00E1} ocupada."
  }

  const MissingDataMessage: string := "Faltan datos obligatorios"

  lemma MessagesDiffer(aula: string)
    ensures CareerTakenMessage != RoomTakenMessage(aula)
  {
    assert CareerTakenMessage[1] != RoomTakenMessage(aula)[1];
  }

  // ---------------------------------------------------------------------
  // Conflict check
  // ---------------------------------------------------------------------

  /** `c.id_clase !== excludeId`; `None` stands for `excludeId = null`. */
  predicate NotExcluded(c: Clase, excludeId: Option<string>) {
    excludeId.None? || c.id_clase != excludeId.value
  }

  predicate SameSlot(a: Clase, b: Clase) {
    a.dia == b.dia && a.hora_inicio == b.hora_inicio
  }

  /** `c` already holds `item`'s cell for `item`'s career. */
  predicate CareerClash(c: Clase, item: Clase, excludeId: Option<string>) {
    SameSlot(c, item) && StrictEq(c.id_carrera, item.id_carrera) && NotExcluded(c, excludeId)
  }

  /** `c` already holds `item`'s room in `item`'s cell, whatever its career. */
  predicate RoomClash(c: Clase, item: Clase, excludeId: Option<string>) {
    SameSlot(c, item) && c.nombre_aula == item.nombre_aula && NotExcluded(c, excludeId)
  }

  predicate AnyCareerClash(data: seq<Clase>, item: Clase, excludeId: Option<string>) {
    exists i :: 0 <= i < |data| && CareerClash(data[i], item, excludeId)
  }

  predicate AnyRoomClash(data: seq<Clase>, item: Clase, excludeId: Option<string>) {
    exists i :: 0 <= i < |data| && RoomClash(data[i], item, excludeId)
  }

  /**
   * `checkConflicts`: the career clash is looked for first, then the room
   * clash; the result is the alert text, or None when `item` may be placed.
   */
  function CheckConflicts(data: seq<Clase>, item: Clase, excludeId: Option<string>): (r: Option<string>)
    ensures r == Some(CareerTakenMessage) <==> AnyCareerClash(data, item, excludeId)
    ensures r == Some(RoomTakenMessage(item.nombre_aula))
            <==> !AnyCareerClash(data, item, excludeId) && AnyRoomClash(data, item, excludeId)
    ensures r.None? <==> !AnyCareerClash(data, item, excludeId) && !AnyRoomClash(data, item, excludeId)
  {
    MessagesDiffer(item.nombre_aula);
    if Find(data, c => CareerClash(c, item, excludeId)).Some? then Some(CareerTakenMessage)
    else if Find(data, c => RoomClash(c, item, excludeId)).Some? then Some(RoomTakenMessage(item.nombre_aula))
    else None
  }

  /** Excluding an id can only remove conflicts. */
  lemma ExcludingWeakensCheck(data: seq<Clase>, item: Clase, id: string)
    requires CheckConflicts(data, item, None).None?
    ensures CheckConflicts(data, item, Some(id)).None?
  {
    assert forall i :: 0 <= i < |data| ==> !CareerClash(data[i], item, None) && !RoomClash(data[i], item, None);
  }

  // ---------------------------------------------------------------------
  // The timetable invariant
  // ---------------------------------------------------------------------

  /**
   * No two classes share a cell and a career, and no two share a cell and a
   * room. Careers are compared with `===`, as the check compares them.
   */
  predicate NoDoubleBooking(data: seq<Clase>) {
    forall i, j :: 0 <= i < j < |data| && SameSlot(data[i], data[j]) ==>
      !StrictEq(data[i].id_carrera, data[j].id_carrera) && data[i].nombre_aula != data[j].nombre_aula
  }

  predicate UniqueIds(data: seq<Clase>) {
    forall i, j :: 0 <= i < j < |data| ==> data[i].id_clase != data[j].id_clase
  }

  predicate HasId(data: seq<Clase>, id: string) {
    exists i :: 0 <= i < |data| && data[i].id_clase == id
  }

  /** `data.map(c => c.id_clase === x.id_clase ? x : c)`. */
  function ReplaceById(data: seq<Clase>, x: Clase): (r: seq<Clase>)
    ensures |r| == |data|
    ensures forall i :: 0 <= i < |data| && data[i].id_clase == x.id_clase ==> r[i] == x
    ensures forall i :: 0 <= i < |data| && data[i].id_clase != x.id_clase ==> r[i] == data[i]
  {
    UpdateWhere(data, (c: Clase) => c.id_clase == x.id_clase, (c: Clase) => x)
  }

  /** Appending a class the check accepted keeps the timetable free of double bookings. */
  lemma AppendKeepsNoDoubleBooking(data: seq<Clase>, x: Clase)
    requires NoDoubleBooking(data)
    requires CheckConflicts(data, x, None).None?
    ensures NoDoubleBooking(data + [x])
  {
    var r := data + [x];
    forall i, j | 0 <= i < j < |r| && SameSlot(r[i], r[j])
      ensures !StrictEq(r[i].id_carrera, r[j].id_carrera) && r[i].nombre_aula != r[j].nombre_aula
    {
      if j == |data| {
        assert !CareerClash(data[i], x, None) && !RoomClash(data[i], x, None);
      }
    }
  }

  /** A fresh id keeps the ids unique. */
  lemma AppendKeepsUniqueIds(data: seq<Clase>, x: Clase)
    requires UniqueIds(data) && !HasId(data, x.id_clase)
    ensures UniqueIds(data + [x])
  {
    var r := data + [x];
    forall i, j | 0 <= i < j < |r| ensures r[i].id_clase != r[j].id_clase {
      if j == |data| {
        assert r[i] == data[i];
      }
    }
  }

  /**
   * Replacing a class by id, after the check accepted it with its own id
   * excluded, keeps the timetable free of double bookings and keeps the ids.
   */
  lemma ReplaceKeepsNoDoubleBooking(data: seq<Clase>, x: Clase)
    requires NoDoubleBooking(data) && UniqueIds(data)
    requires CheckConflicts(data, x, Some(x.id_clase)).None?
    ensures NoDoubleBooking(ReplaceById(data, x))
    ensures UniqueIds(ReplaceById(data, x))
  {
    var r := ReplaceById(data, x);
    forall i, j | 0 <= i < j < |r| && SameSlot(r[i], r[j])
      ensures !StrictEq(r[i].id_carrera, r[j].id_carrera) && r[i].nombre_aula != r[j].nombre_aula
    {
      if data[i].id_clase == x.id_clase {
        assert r[i] == x && r[j] == data[j];
        assert !CareerClash(data[j], x, Some(x.id_clase)) && !RoomClash(data[j], x, Some(x.id_clase));
        StrictEqIsPartialEquivalence(data[j].id_carrera, x.id_carrera, x.id_carrera);
      } else if data[j].id_clase == x.id_clase {
        assert r[j] == x && r[i] == data[i];
        assert !CareerClash(data[i], x, Some(x.id_clase)) && !RoomClash(data[i], x, Some(x.id_clase));
      }
    }
    forall i, j | 0 <= i < j < |r| ensures r[i].id_clase != r[j].id_clase {
      assert r[i].id_clase == data[i].id_clase && r[j].id_clase == data[j].id_clase;
    }
  }

  /**
   * Dropping a class back onto its own cell passes the check, because its own
   * id is excluded, and the replacement changes nothing.
   */
  lemma DropOnOwnCellIsAccepted(data: seq<Clase>, k: nat)
    requires NoDoubleBooking(data) && UniqueIds(data) && k < |data|
    ensures CheckConflicts(data, data[k], Some(data[k].id_clase)).None?
    ensures ReplaceById(data, data[k]) == data
  {
    var d := data[k];
    forall i | 0 <= i < |data|
      ensures !CareerClash(data[i], d, Some(d.id_clase)) && !RoomClash(data[i], d, Some(d.id_clase))
    {
      if i != k && SameSlot(data[i], d) {
        StrictEqIsPartialEquivalence(data[i].id_carrera, d.id_carrera, d.id_carrera);
        if i > k {
          StrictEqIsPartialEquivalence(d.id_carrera, data[i].id_carrera, d.id_carrera);
        }
      }
    }
    var r := ReplaceById(data, d);
    forall i | 0 <= i < |data| ensures r[i] == data[i] {
      if i != k {
        assert data[i].id_clase != d.id_clase;
      }
    }
  }

  // ---------------------------------------------------------------------
  // The store
  // ---------------------------------------------------------------------

  datatype ModalKind = Add | Edit | View

  /** The cell an add was started from. */
  datatype Slot = Slot(day: string, time: string)

  datatype ModalState = ModalState(isOpen: bool, kind: ModalKind, data: Option<Clase>, targetSlot: Option<Slot>)

  /** One `updateModalData(field, value)` call, by field. */
  datatype DraftEdit =
    | SetId(s: string)
    | SetAsignatura(s: string)
    | SetDocente(s: string)
    | SetAula(s: string)
    | SetSeccion(s: string)
    | SetColor(s: string)
    | SetCarrera(f: Field)
    | SetDia(s: string)
    | SetHora(s: string)

  /** `{ ...draft, [field]: value }`. */
  function ApplyEdit(c: Clase, e: DraftEdit): (r: Clase)
    ensures e.SetAsignatura? ==> r == c.(nombre_asignatura := e.s)
    ensures e.SetAula? ==> r == c.(nombre_aula := e.s)
    ensures e.SetCarrera? ==> r == c.(id_carrera := e.f)
    ensures e.SetDia? ==> r == c.(dia := e.s)
    ensures e.SetHora? ==> r == c.(hora_inicio := e.s)
  {
    match e
    case SetId(s) => c.(id_clase := s)
    case SetAsignatura(s) => c.(nombre_asignatura := s)
    case SetDocente(s) => c.(nombre_docente := s)
    case SetAula(s) => c.(nombre_aula := s)
    case SetSeccion(s) => c.(codigo_seccion := s)
    case SetColor(s) => c.(color := s)
    case SetCarrera(f) => c.(id_carrera := f)
    case SetDia(s) => c.(dia := s)
    case SetHora(s) => c.(hora_inicio := s)
  }

  /** The object `{}`: every text field unset. */
  const EmptyDraft: Clase := Clase("", "", "", "", "", "", Undef, "", "")

  /** The draft `openModal('add', …)` starts from, for the given career. */
  function AddDraft(careerId: Field): (c: Clase)
    ensures c.nombre_asignatura == "" && c.nombre_aula == ""
    ensures c.color == "color-blue"
    ensures c.id_carrera == ParseInt(careerId)
  {
    Clase("", "", "", "", "", "color-blue", ParseInt(careerId), "", "")
  }

  /** What `saveClass` did. */
  datatype SaveOutcome = Saved | Alerted(message: string) | Threw

  /** The class `saveClass` would write: an add takes its id and cell from the oracle and the slot. */
  function ClassToSave(kind: ModalKind, d: Clase, slot: Slot, freshId: string): (c: Clase)
    ensures kind == Add ==> c == d.(id_clase := freshId, dia := slot.day, hora_inicio := slot.time)
    ensures kind != Add ==> c == d
  {
    if kind == Add then d.(id_clase := freshId, dia := slot.day, hora_inicio := slot.time) else d
  }

  /** The id `saveClass` excludes from the check: the draft's own in edit mode, none otherwise. */
  function SaveExcludeId(kind: ModalKind, d: Clase): (r: Option<string>)
    ensures r.Some? <==> kind == Edit
    ensures r.Some? ==> r.value == d.id_clase
  {
    if kind == Edit then Some(d.id_clase) else None
  }

  class ScheduleStore {
    var scheduleData: seq<Clase>
    var draggedClass: Option<Clase>
    var modal: ModalState

    /** The timetable holds no double booking and no repeated id. */
    predicate Consistent()
      reads this
    {
      NoDoubleBooking(scheduleData) && UniqueIds(scheduleData)
    }

    constructor (initialData: seq<Clase>)
      ensures scheduleData == initialData
      ensures draggedClass == None
      ensures modal == ModalState(false, View, None, None)
    {
      scheduleData := initialData;
      draggedClass := None;
      modal := ModalState(false, View, None, None);
    }

    method SetDraggedClass(c: Option<Clase>)
      modifies this
      ensures draggedClass == c
      ensures scheduleData == old(scheduleData) && modal == old(modal)
    {
      draggedClass := c;
    }

    /**
     * `moveClass(newDay, newTime)`: with no dragged class nothing happens.
     * Otherwise the dragged class, moved to the target cell, is checked with
     * its own id excluded; a conflict is returned as the alert and changes
     * nothing, and an accepted move replaces the class by id and ends the drag.
     */
    method MoveClass(newDay: string, newTime: string) returns (alert: Option<string>)
      modifies this
      ensures modal == old(modal)
      ensures old(draggedClass).None? ==>
        alert.None? && scheduleData == old(scheduleData) && draggedClass == old(draggedClass)
      ensures old(draggedClass).Some? ==>
        var d := old(draggedClass).value;
        var moved := d.(dia := newDay, hora_inicio := newTime);
        var check := CheckConflicts(old(scheduleData), moved, Some(d.id_clase));
        && (check.Some? ==>
              alert == check && scheduleData == old(scheduleData) && draggedClass == old(draggedClass))
        && (check.None? ==>
              alert.None? && scheduleData == ReplaceById(old(scheduleData), moved) && draggedClass.None?)
      ensures old(Consistent()) ==> Consistent()
    {
      if draggedClass.None? {
        return None;
      }
      var d := draggedClass.value;
      var moved := d.(dia := newDay, hora_inicio := newTime);
      var error := CheckConflicts(scheduleData, moved, Some(d.id_clase));
      if error.Some? {
        return error;
      }
      if Consistent() {
        ReplaceKeepsNoDoubleBooking(scheduleData, moved);
      }
      scheduleData := ReplaceById(scheduleData, moved);
      draggedClass := None;
      alert := None;
    }

    /**
     * `openModal(type, data, slot, careerId)`: an add starts from the blank
     * draft for the career; any other kind edits a copy of `data` (`{}` when
     * there is none).
     */
    method OpenModal(kind: ModalKind, data: Option<Clase>, slot: Option<Slot>, careerId: Field)
      modifies this
      ensures modal.isOpen && modal.kind == kind && modal.targetSlot == slot
      ensures kind == Add ==> modal.data == Some(AddDraft(careerId))
      ensures kind != Add ==> modal.data == Some(if data.Some? then data.value else EmptyDraft)
      ensures scheduleData == old(scheduleData) && draggedClass == old(draggedClass)
    {
      var draft := if kind == Add then AddDraft(careerId) else if data.Some? then data.value else EmptyDraft;
      modal := ModalState(true, kind, Some(draft), slot);
    }

    method CloseModal()
      modifies this
      ensures modal == old(modal).(isOpen := false)
      ensures scheduleData == old(scheduleData) && draggedClass == old(draggedClass)
    {
      modal := modal.(isOpen := false);
    }

    /** `updateModalData(field, value)`: a null draft becomes an object holding just that field. */
    method UpdateModalData(e: DraftEdit)
      modifies this
      ensures modal == old(modal).(data := Some(ApplyEdit(if old(modal).data.Some? then old(modal).data.value else EmptyDraft, e)))
      ensures scheduleData == old(scheduleData) && draggedClass == old(draggedClass)
    {
      var base := if modal.data.Some? then modal.data.value else EmptyDraft;
      modal := modal.(data := Some(ApplyEdit(base, e)));
    }

    /**
     * `saveClass()`, with `freshId` standing for `crypto.randomUUID()`.
     * Reading a field of a null draft, or the slot of an add without one,
     * throws. A draft without subject or room is refused before the check.
     * Otherwise the class is checked (own id excluded only in edit mode); a
     * conflict is returned as the alert, and an accepted class is appended
     * (add) or replaces the class with its id (any other kind), after which
     * the modal closes. Every refusal leaves the whole store as it was.
     */
    method SaveClass(freshId: string) returns (outcome: SaveOutcome)
      modifies this
      ensures draggedClass == old(draggedClass)
      ensures !outcome.Saved? ==> scheduleData == old(scheduleData) && modal == old(modal)
      ensures old(modal).data.None? ==> outcome == Threw
      ensures old(modal).data.Some? ==>
        var d := old(modal).data.value;
        && (d.nombre_asignatura == "" || d.nombre_aula == "" ==> outcome == Alerted(MissingDataMessage))
        && (d.nombre_asignatura != "" && d.nombre_aula != "" && old(modal).kind == Add && old(modal).targetSlot.None? ==>
              outcome == Threw)
      ensures outcome.Saved? ==>
        var m := old(modal);
        && m.data.Some? && m.data.value.nombre_asignatura != "" && m.data.value.nombre_aula != ""
        && (m.kind == Add ==> m.targetSlot.Some?)
        && var c := ClassToSave(m.kind, m.data.value, if m.kind == Add then m.targetSlot.value else Slot("", ""), freshId);
           && CheckConflicts(old(scheduleData), c, SaveExcludeId(m.kind, m.data.value)).None?
           && scheduleData == (if m.kind == Add then old(scheduleData) + [c] else ReplaceById(old(scheduleData), c))
           && modal == m.(isOpen := false)
      ensures outcome.Alerted? && old(modal).data.Some?
              && old(modal).data.value.nombre_asignatura != "" && old(modal).data.value.nombre_aula != "" ==>
        var m := old(modal);
        var c := ClassToSave(m.kind, m.data.value, if m.kind == Add then m.targetSlot.value else Slot("", ""), freshId);
        Some(outcome.message) == CheckConflicts(old(scheduleData), c, SaveExcludeId(m.kind, m.data.value))
      ensures old(Consistent()) && !HasId(old(scheduleData), freshId) ==> Consistent()
    {
      if modal.data.None? {
        return Threw;
      }
      var d := modal.data.value;
      if d.nombre_asignatura == "" || d.nombre_aula == "" {
        return Alerted(MissingDataMessage);
      }
      if modal.kind == Add && modal.targetSlot.None? {
        return Threw;
      }
      var slot := if modal.kind == Add then modal.targetSlot.value else Slot("", "");
      var c := ClassToSave(modal.kind, d, slot, freshId);
      var error := CheckConflicts(scheduleData, c, SaveExcludeId(modal.kind, d));
      if error.Some? {
        return Alerted(error.value);
      }
      if modal.kind == Add {
        if Consistent() && !HasId(scheduleData, freshId) {
          AppendKeepsNoDoubleBooking(scheduleData, c);
          AppendKeepsUniqueIds(scheduleData, c);
        }
        scheduleData := scheduleData + [c];
      } else {
        if Consistent() {
          if modal.kind == View {
            ExcludingWeakensCheck(scheduleData, c, c.id_clase);
          }
          ReplaceKeepsNoDoubleBooking(scheduleData, c);
        }
        scheduleData := ReplaceById(scheduleData, c);
      }
      modal := modal.(isOpen := false);
      outcome := Saved;
    }
  }
}
