/**
 * `usePlanEstudio` (the API-backed `.jsx` hook): study plans filtered by
 * search, state and a start-year range; a save that checks the required
 * fields and the year order before building the payload and the request;
 * and the status change confirmed through a modal.
 *
 * Dates are kept as the year they carry (`None` when the plan has none);
 * the request is returned instead of sent and the server's answer is a
 * parameter (`None` for success, `Some(message)` for a thrown error).
 */
module PlanesApi {
  import opened Common
  import opened Catalog
  import Lists

  /** A plan as the server lists it. */
  datatype Plan = Plan(id_plan_estudio: string, id_carrera: Field, nombre: Option<string>,
                       carreraNombre: Option<string>, descripcion: Option<string>,
                       inicio: Option<int>, fin: Option<int>, vigente: bool)

  /** The modal form; the year fields hold whatever the inputs or `openEditModal` put there. */
  datatype PlanForm = PlanForm(id_plan_estudio: string, id_carrera: Field, nombre: string, descripcion: Option<string>,
                               fecha_inicio: Field, fecha_fin: Field, vigente: Option<bool>)

  /** `new Date(`${year}-01-01`)` and `new Date(`${year}-12-31`)`, kept as the year text they are built from. */
  datatype DateBound = StartOfYear(year: Field) | EndOfYear(year: Field)

  datatype Payload = Payload(id_carrera: Field, nombre: string, descripcion: Option<string>,
                             fecha_inicio: Option<DateBound>, fecha_fin: Option<DateBound>, vigente: bool)

  // ---------------------------------------------------------------------
  // The filter
  // ---------------------------------------------------------------------

  /** `filterYearFrom ? parseInt(filterYearFrom) : 0` (and 9999 for the upper bound). */
  function Bound(filter: string, default: int): (r: Field)
    ensures filter == "" ==> r == Int(default)
    ensures filter != "" ==> r == ParseInt(Str(filter))
  {
    if filter == "" then Int(default) else ParseInt(Str(filter))
  }

  /** `startYear >= from && startYear <= to`; a NaN bound fails every comparison. */
  predicate YearInRange(inicio: Option<int>, filterYearFrom: string, filterYearTo: string) {
    match inicio
    case None => true
    case Some(y) =>
      var from := Bound(filterYearFrom, 0);
      var to := Bound(filterYearTo, 9999);
      from.Int? && to.Int? && from.n <= y <= to.n
  }

  predicate MatchesAll(p: Plan, term: string, filterEstado: string, filterYearFrom: string, filterYearTo: string) {
    MatchesSearch(term, [p.nombre, p.carreraNombre])
    && MatchesEstado(filterEstado, p.vigente)
    && YearInRange(p.inicio, filterYearFrom, filterYearTo)
  }

  /** `filteredPlanes`. */
  function FilteredPlanes(planes: seq<Plan>, term: string, filterEstado: string, filterYearFrom: string, filterYearTo: string)
    : (r: seq<Plan>)
    ensures forall i :: 0 <= i < |r| ==> r[i] in planes && MatchesAll(r[i], term, filterEstado, filterYearFrom, filterYearTo)
    ensures forall i :: 0 <= i < |planes| && MatchesAll(planes[i], term, filterEstado, filterYearFrom, filterYearTo) ==>
              planes[i] in r
  {
    var keep := (p: Plan) => MatchesAll(p, term, filterEstado, filterYearFrom, filterYearTo);
    Lists.FilterMembers(planes, keep);
    Lists.Filter(planes, keep)
  }

  /** With both year bounds empty, a plan passes exactly when it has no start year or one in 0..9999. */
  lemma DefaultYearRange(inicio: Option<int>)
    ensures YearInRange(inicio, "", "") <==> inicio.None? || 0 <= inicio.value <= 9999
  {
  }

  /** A bound that is not a number shuts out every plan that has a start year. */
  lemma NonNumericBoundExcludesDated(y: int, filterYearFrom: string, filterYearTo: string)
    requires filterYearFrom != "" && ParseInt(Str(filterYearFrom)).NaN?
    ensures !YearInRange(Some(y), filterYearFrom, filterYearTo)
    ensures YearInRange(None, filterYearFrom, filterYearTo)
  {
  }

  // ---------------------------------------------------------------------
  // Save
  // ---------------------------------------------------------------------

  const RequiredMessage: string := "La carrera y el nombre son obligatorios"
  const YearOrderMessage: string := "El a\U{00F1}o de inicio debe ser anterior al a\U{00F1}o de fin"

  /** `yearInicio >= yearFin` after `parseInt` of both; NaN on either side is false. */
  predicate YearsOutOfOrder(fecha_inicio: Field, fecha_fin: Field) {
    var a := ParseInt(fecha_inicio);
    var b := ParseInt(fecha_fin);
    a.Int? && b.Int? && a.n >= b.n
  }

  /** The two guards of `handleSavePlan`; the order check runs only when both years are given. */
  function SaveCheck(f: PlanForm): (r: Option<string>)
    ensures (f.nombre == "" || !Truthy(f.id_carrera)) ==> r == Some(RequiredMessage)
    ensures (f.nombre != "" && Truthy(f.id_carrera) && Truthy(f.fecha_inicio) && Truthy(f.fecha_fin)
             && YearsOutOfOrder(f.fecha_inicio, f.fecha_fin)) ==> r == Some(YearOrderMessage)
    ensures r.None? <==> (f.nombre != "" && Truthy(f.id_carrera)
                          && !(Truthy(f.fecha_inicio) && Truthy(f.fecha_fin) && YearsOutOfOrder(f.fecha_inicio, f.fecha_fin)))
  {
    if f.nombre == "" || !Truthy(f.id_carrera) then Some(RequiredMessage)
    else if Truthy(f.fecha_inicio) && Truthy(f.fecha_fin) && YearsOutOfOrder(f.fecha_inicio, f.fecha_fin) then
      Some(YearOrderMessage)
    else None
  }

  /** The payload: empty text becomes null, missing years become null, `vigente` defaults to true. */
  function PayloadOf(f: PlanForm): (p: Payload)
    ensures p.id_carrera == f.id_carrera && p.nombre == f.nombre
    ensures p.descripcion.None? <==> f.descripcion.None? || f.descripcion.value == ""
    ensures p.descripcion.Some? ==> p.descripcion == f.descripcion
    ensures p.fecha_inicio == (if Truthy(f.fecha_inicio) then Some(StartOfYear(f.fecha_inicio)) else None)
    ensures p.fecha_fin == (if Truthy(f.fecha_fin) then Some(EndOfYear(f.fecha_fin)) else None)
    ensures p.vigente == (f.vigente.None? || f.vigente.value)
  {
    Payload(f.id_carrera, f.nombre,
            if f.descripcion.Some? && f.descripcion.value != "" then f.descripcion else None,
            if Truthy(f.fecha_inicio) then Some(StartOfYear(f.fecha_inicio)) else None,
            if Truthy(f.fecha_fin) then Some(EndOfYear(f.fecha_fin)) else None,
            if f.vigente.Some? then f.vigente.value else true)
  }

  const Base: string := "/planes-estudio"

  function SavedNotice(kind: ModalKind): Notice {
    Shown(if kind == AddMode then "Plan de estudio creado exitosamente" else "Plan de estudio actualizado exitosamente", false)
  }

  /** `openEditModal`: dates become their year, or the empty text when absent. */
  function EditForm(p: Plan): (f: PlanForm)
    ensures f.id_plan_estudio == p.id_plan_estudio && f.id_carrera == p.id_carrera && f.vigente == Some(p.vigente)
    ensures f.fecha_inicio == (if p.inicio.Some? then Int(p.inicio.value) else Str(""))
    ensures f.fecha_fin == (if p.fin.Some? then Int(p.fin.value) else Str(""))
  {
    PlanForm(p.id_plan_estudio, p.id_carrera, if p.nombre.Some? then p.nombre.value else "", p.descripcion,
             if p.inicio.Some? then Int(p.inicio.value) else Str(""),
             if p.fin.Some? then Int(p.fin.value) else Str(""),
             Some(p.vigente))
  }

  const AddForm: PlanForm := PlanForm("", Str(""), "", Some(""), Str(""), Str(""), Some(true))

  /** A named plan of a career whose years are out of order cannot be saved again unchanged. */
  lemma DisorderedPlanCannotBeResaved(p: Plan)
    requires p.nombre.Some? && p.nombre.value != "" && Truthy(p.id_carrera)
    requires p.inicio.Some? && p.inicio.value != 0 && p.fin.Some? && p.fin.value != 0 && p.inicio.value >= p.fin.value
    ensures SaveCheck(EditForm(p)) == Some(YearOrderMessage)
  {
  }

  /** Saving an edit form unchanged sends the plan's own years back, as the first and last day of each. */
  lemma EditPayloadKeepsYears(p: Plan)
    requires p.inicio.Some? && p.inicio.value != 0 && p.fin.Some? && p.fin.value != 0
    ensures PayloadOf(EditForm(p)).fecha_inicio == Some(StartOfYear(Int(p.inicio.value)))
    ensures PayloadOf(EditForm(p)).fecha_fin == Some(EndOfYear(Int(p.fin.value)))
    ensures PayloadOf(EditForm(p)).vigente == p.vigente
  {
  }

  // ---------------------------------------------------------------------
  // Status change
  // ---------------------------------------------------------------------

  /** The id and state `executeToggleStatus` reads from the modal data. */
  function ToggleSubject(data: ModalData<PlanForm>): (string, bool) {
    match data
    case Form(f) => (f.id_plan_estudio, f.vigente.Some? && f.vigente.value)
    case ToggleTarget(id, vigente, _) => (id, vigente)
  }

  function StatusNotice(vigente: bool): Notice {
    Shown(if vigente then "Plan dado de baja exitosamente" else "Plan reactivado exitosamente", false)
  }

  class PlanCatalog {
    var planes: seq<Plan>
    var searchTerm: string
    var filterEstado: string
    var filterYearFrom: string
    var filterYearTo: string
    var notificationModal: Notice
    var notification: Notice
    var isOpen: bool
    var kind: ModalKind
    var data: ModalData<PlanForm>

    function Visible(): seq<Plan>
      reads this
    {
      FilteredPlanes(planes, searchTerm, filterEstado, filterYearFrom, filterYearTo)
    }

    /** The hook once its load has brought `loaded`. */
    constructor (loaded: seq<Plan>)
      ensures planes == loaded && searchTerm == "" && filterEstado == "" && filterYearFrom == "" && filterYearTo == ""
      ensures notificationModal == Hidden && notification == Hidden
      ensures !isOpen && kind == AddMode && data == Form(AddForm)
    {
      planes := loaded;
      searchTerm, filterEstado, filterYearFrom, filterYearTo := "", "", "", "";
      notificationModal, notification := Hidden, Hidden;
      isOpen, kind, data := false, AddMode, Form(AddForm);
    }

    method ToggleStatus(id: string, currentStatus: bool, nombre: Option<string>)
      modifies this
      ensures isOpen && kind == ConfirmToggleMode && data == ToggleTarget(id, currentStatus, nombre)
      ensures notificationModal == Hidden && notification == old(notification) && planes == old(planes)
      ensures searchTerm == old(searchTerm) && filterEstado == old(filterEstado)
      ensures filterYearFrom == old(filterYearFrom) && filterYearTo == old(filterYearTo)
    {
      notificationModal := Hidden;
      isOpen, kind, data := true, ConfirmToggleMode, ToggleTarget(id, currentStatus, nombre);
    }

    /**
     * `executeToggleStatus`: sends the endpoint chosen by the modal's state;
     * on success reports it and closes the modal, on failure shows the
     * error inside the modal.
     */
    method ExecuteToggleStatus(serverError: Option<string>) returns (sent: Request<Payload>)
      modifies this
      ensures sent == ToggleRequest(Base, ToggleSubject(old(data)).0, ToggleSubject(old(data)).1)
      ensures serverError.None? ==> notification == StatusNotice(ToggleSubject(old(data)).1)
                                    && !isOpen && notificationModal == Hidden
      ensures serverError.Some? ==> notificationModal == ErrorNotice(serverError.value, "Error al cambiar el estado")
                                    && notification == old(notification) && isOpen == old(isOpen)
      ensures kind == old(kind) && data == old(data) && planes == old(planes)
      ensures searchTerm == old(searchTerm) && filterEstado == old(filterEstado)
      ensures filterYearFrom == old(filterYearFrom) && filterYearTo == old(filterYearTo)
    {
      var (id, vigente) := ToggleSubject(data);
      sent := ToggleRequest(Base, id, vigente);
      if serverError.Some? {
        notificationModal := ErrorNotice(serverError.value, "Error al cambiar el estado");
        return;
      }
      notification := StatusNotice(vigente);
      CloseModal();
    }

    method OpenAddModal()
      modifies this
      ensures isOpen && kind == AddMode && data == Form(AddForm) && notificationModal == Hidden
      ensures notification == old(notification) && planes == old(planes)
      ensures searchTerm == old(searchTerm) && filterEstado == old(filterEstado)
      ensures filterYearFrom == old(filterYearFrom) && filterYearTo == old(filterYearTo)
    {
      notificationModal := Hidden;
      isOpen, kind, data := true, AddMode, Form(AddForm);
    }

    method OpenEditModal(item: Plan)
      modifies this
      ensures isOpen && kind == EditMode && data == Form(EditForm(item)) && notificationModal == Hidden
      ensures notification == old(notification) && planes == old(planes)
      ensures searchTerm == old(searchTerm) && filterEstado == old(filterEstado)
      ensures filterYearFrom == old(filterYearFrom) && filterYearTo == old(filterYearTo)
    {
      notificationModal := Hidden;
      isOpen, kind, data := true, EditMode, Form(EditForm(item));
    }

    method CloseModal()
      modifies this
      ensures !isOpen && notificationModal == Hidden
      ensures kind == old(kind) && data == old(data) && notification == old(notification) && planes == old(planes)
      ensures searchTerm == old(searchTerm) && filterEstado == old(filterEstado)
      ensures filterYearFrom == old(filterYearFrom) && filterYearTo == old(filterYearTo)
    {
      notificationModal := Hidden;
      isOpen := false;
    }

    /**
     * `handleSavePlan`: a failed guard shows its message and sends nothing;
     * otherwise the request is sent and the modal shows the outcome.
     */
    method HandleSavePlan(f: PlanForm, serverError: Option<string>) returns (sent: Option<Request<Payload>>)
      modifies this
      ensures SaveCheck(f).Some? ==> sent.None? && notificationModal == Shown(SaveCheck(f).value, true)
      ensures SaveCheck(f).None? ==> sent == Some(SaveRequest(Base, kind, f.id_plan_estudio, PayloadOf(f)))
      ensures SaveCheck(f).None? && serverError.None? ==> notificationModal == SavedNotice(kind)
      ensures SaveCheck(f).None? && serverError.Some? ==>
                notificationModal == ErrorNotice(serverError.value, "Error al procesar la solicitud")
      ensures kind == old(kind) && data == old(data) && isOpen == old(isOpen)
      ensures notification == old(notification) && planes == old(planes)
      ensures searchTerm == old(searchTerm) && filterEstado == old(filterEstado)
      ensures filterYearFrom == old(filterYearFrom) && filterYearTo == old(filterYearTo)
    {
      var check := SaveCheck(f);
      if check.Some? {
        notificationModal := Shown(check.value, true);
        return None;
      }
      sent := Some(SaveRequest(Base, kind, f.id_plan_estudio, PayloadOf(f)));
      if serverError.Some? {
        notificationModal := ErrorNotice(serverError.value, "Error al procesar la solicitud");
      } else {
        notificationModal := SavedNotice(kind);
      }
    }
  }
}
