/**
 * `HorarioComponent`: the timetable grid. Each (day, time) cell shows the
 * first class placed there or an empty cell, and user gestures on a cell
 * become calls to the handlers the parent passed in, all gated by `readOnly`.
 */
module ScheduleGrid {
  import opened Common
  import opened Lists
  import opened Schedule

  predicate PlacedAt(c: Clase, day: string, time: string) {
    c.dia == day && c.hora_inicio == time
  }

  /** What a cell renders. */
  datatype CellView =
    | Card(classData: Clase, draggable: bool, dragging: bool, editIcon: bool)
    | EmptyCell(addButton: bool)

  /** `renderCell(day, time)`. */
  function RenderCell(data: seq<Clase>, draggedClass: Option<Clase>, readOnly: bool, day: string, time: string)
    : (v: CellView)
    ensures v.EmptyCell? <==> forall i :: 0 <= i < |data| ==> !PlacedAt(data[i], day, time)
    ensures v.Card? ==> exists i :: 0 <= i < |data| && data[i] == v.classData && PlacedAt(data[i], day, time)
                                  && forall j :: 0 <= j < i ==> !PlacedAt(data[j], day, time)
    ensures v.Card? ==> v.draggable == !readOnly && v.editIcon == !readOnly
    ensures v.Card? ==> (v.dragging <==> draggedClass.Some? && draggedClass.value.id_clase == v.classData.id_clase)
    ensures v.EmptyCell? ==> v.addButton == !readOnly
  {
    match Find(data, c => PlacedAt(c, day, time))
    case None => EmptyCell(!readOnly)
    case Some(c) =>
      Card(c, !readOnly, draggedClass.Some? && draggedClass.value.id_clase == c.id_clase, !readOnly)
  }

  /** A timetable without double bookings cannot hide a class for the same career in a shown cell. */
  lemma CardIsTheOnlyClassOfItsCareer(data: seq<Clase>, draggedClass: Option<Clase>, readOnly: bool,
                                      day: string, time: string, k: nat)
    requires NoDoubleBooking(data) && k < |data| && PlacedAt(data[k], day, time)
    ensures RenderCell(data, draggedClass, readOnly, day, time).Card?
    ensures var c := RenderCell(data, draggedClass, readOnly, day, time).classData;
            c == data[k] || (!StrictEq(c.id_carrera, data[k].id_carrera) && c.nombre_aula != data[k].nombre_aula)
  {
    var v := RenderCell(data, draggedClass, readOnly, day, time);
    var i :| 0 <= i < |data| && data[i] == v.classData && PlacedAt(data[i], day, time)
             && forall j :: 0 <= j < i ==> !PlacedAt(data[j], day, time);
    if i != k {
      assert i < k;
      assert SameSlot(data[i], data[k]);
    }
  }

  /** A user gesture on a cell. */
  datatype Gesture = DragStart | Drop | Click | EditClick

  /** A call up to the parent's handlers. */
  datatype Upcall =
    | OnDragStart(c: Clase)
    | OnDrop(day: string, time: string)
    | OnView(c: Clase)
    | OnEdit(c: Clase)
    | OnAdd(day: string, time: string)

  /**
   * The handler a gesture on cell (day, time) reaches. Cards take drags,
   * clicks and edit clicks (the edit icon exists only when not read-only);
   * empty cells take drops and clicks. Drag and drop are ignored when
   * read-only, and so are clicks on empty cells.
   */
  function Dispatch(data: seq<Clase>, draggedClass: Option<Clase>, readOnly: bool,
                    day: string, time: string, g: Gesture): (u: Option<Upcall>)
    ensures readOnly ==> u.None? || u.value.OnView?
    ensures g == Click && RenderCell(data, draggedClass, readOnly, day, time).Card? ==>
              u == Some(OnView(RenderCell(data, draggedClass, readOnly, day, time).classData))
    ensures u.Some? && u.value.OnDrop? ==>
              u.value == OnDrop(day, time) && RenderCell(data, draggedClass, readOnly, day, time).EmptyCell?
    ensures u.Some? && u.value.OnAdd? ==>
              u.value == OnAdd(day, time) && RenderCell(data, draggedClass, readOnly, day, time).EmptyCell?
    ensures u.Some? && (u.value.OnDragStart? || u.value.OnEdit? || u.value.OnView?) ==>
              RenderCell(data, draggedClass, readOnly, day, time).Card?
  {
    match RenderCell(data, draggedClass, readOnly, day, time)
    case Card(c, draggable, _, editIcon) =>
      (match g
       case DragStart => if readOnly then None else Some(OnDragStart(c))
       case Click => Some(OnView(c))
       case EditClick => if editIcon then Some(OnEdit(c)) else None
       case Drop => None)
    case EmptyCell(_) =>
      (match g
       case Drop => if readOnly then None else Some(OnDrop(day, time))
       case Click => if readOnly then None else Some(OnAdd(day, time))
       case _ => None)
  }

  /** Every drop the grid lets through is reported for an empty cell, and `moveClass` receives that cell. */
  lemma DropReportsItsOwnEmptyCell(data: seq<Clase>, draggedClass: Option<Clase>, day: string, time: string)
    requires forall i :: 0 <= i < |data| ==> !PlacedAt(data[i], day, time)
    ensures Dispatch(data, draggedClass, false, day, time, Drop) == Some(OnDrop(day, time))
    ensures Dispatch(data, draggedClass, true, day, time, Drop).None?
  {
  }

  // ---------------------------------------------------------------------
  // The grid
  // ---------------------------------------------------------------------

  /** One row: the cells of `time`, in `days` order. */
  function Row(days: seq<string>, time: string): (r: seq<Slot>)
    ensures |r| == |days|
    ensures forall j :: 0 <= j < |days| ==> r[j] == Slot(days[j], time)
  {
    if |days| == 0 then [] else [Slot(days[0], time)] + Row(days[1..], time)
  }

  /** `timeSlots.map(time => days.map(day => cell(day, time)))`. */
  function Grid(timeSlots: seq<string>, days: seq<string>): (g: seq<seq<Slot>>)
    ensures |g| == |timeSlots|
    ensures forall i :: 0 <= i < |timeSlots| ==> g[i] == Row(days, timeSlots[i])
  {
    if |timeSlots| == 0 then [] else [Row(days, timeSlots[0])] + Grid(timeSlots[1..], days)
  }

  predicate Distinct(s: seq<string>) {
    forall i, j :: 0 <= i < j < |s| ==> s[i] != s[j]
  }

  /**
   * Every (time, day) pair has a cell, at row `time`'s index and column
   * `day`'s index, and with distinct days and times no pair has two cells.
   */
  lemma {:induction false} GridHasOneCellPerPair(timeSlots: seq<string>, days: seq<string>)
    requires Distinct(timeSlots) && Distinct(days)
    ensures forall i, j :: 0 <= i < |timeSlots| && 0 <= j < |days| ==>
              Grid(timeSlots, days)[i][j] == Slot(days[j], timeSlots[i])
    ensures forall i, j, i', j' ::
              (0 <= i < |timeSlots| && 0 <= j < |days| && 0 <= i' < |timeSlots| && 0 <= j' < |days|
               && Grid(timeSlots, days)[i][j] == Grid(timeSlots, days)[i'][j']) ==> i == i' && j == j'
  {
    var g := Grid(timeSlots, days);
    forall i, j, i', j' |
      0 <= i < |timeSlots| && 0 <= j < |days| && 0 <= i' < |timeSlots| && 0 <= j' < |days|
      && g[i][j] == g[i'][j']
      ensures i == i' && j == j'
    {
      assert g[i][j] == Slot(days[j], timeSlots[i]);
      assert g[i'][j'] == Slot(days[j'], timeSlots[i']);
    }
  }
}
