/**
 * `useFacultades` (the API-backed `.jsx` hook): faculties filtered by
 * search and state; a save that needs only a name and sends name and
 * description; and the confirmed status change.
 */
module FacultadesApi {
  import opened Common
  import opened Catalog
  import Lists

  /** A faculty as the server lists it. */
  datatype Facultad = Facultad(id_facultad: string, nombre: Option<string>, descripcion: Option<string>, activo: bool)

  /** The modal form: the add form, or a copy of a faculty. */
  datatype FacultadForm = FacultadForm(id_facultad: string, nombre: string, descripcion: Option<string>, activo: bool)

  /** `{ nombre, descripcion }`; an absent description stays absent. */
  datatype Payload = Payload(nombre: string, descripcion: Option<string>)

  const Base: string := "/facultades"

  predicate MatchesAll(f: Facultad, term: string, filterEstado: string) {
    MatchesSearch(term, [f.nombre, f.descripcion]) && MatchesEstado(filterEstado, f.activo)
  }

  /** `filteredFacultades`. */
  function FilteredFacultades(facultades: seq<Facultad>, term: string, filterEstado: string): (r: seq<Facultad>)
    ensures forall i :: 0 <= i < |r| ==> r[i] in facultades && MatchesAll(r[i], term, filterEstado)
    ensures forall i :: 0 <= i < |facultades| && MatchesAll(facultades[i], term, filterEstado) ==> facultades[i] in r
  {
    var keep := (f: Facultad) => MatchesAll(f, term, filterEstado);
    Lists.FilterMembers(facultades, keep);
    Lists.Filter(facultades, keep)
  }

  /** The "activos" and "inactivos" lists split the unfiltered-by-state result between them. */
  lemma StateFiltersSplit(facultades: seq<Facultad>, term: string, f: Facultad)
    requires f in facultades && MatchesSearch(term, [f.nombre, f.descripcion])
    ensures (f in FilteredFacultades(facultades, term, "activos")) != (f in FilteredFacultades(facultades, term, "inactivos"))
  {
    var i :| 0 <= i < |facultades| && facultades[i] == f;
    EstadoFiltersPartition(f.activo);
  }

  const NameRequiredMessage: string := "El nombre es obligatorio."

  function SaveCheck(f: FacultadForm): (r: Option<string>)
    ensures r.None? <==> f.nombre != ""
    ensures r.Some? ==> r.value == NameRequiredMessage
  {
    if f.nombre == "" then Some(NameRequiredMessage) else None
  }

  function PayloadOf(f: FacultadForm): (p: Payload)
    ensures p.nombre == f.nombre && p.descripcion == f.descripcion
  {
    Payload(f.nombre, f.descripcion)
  }

  function EditForm(f: Facultad): (r: FacultadForm)
    ensures r.id_facultad == f.id_facultad && r.descripcion == f.descripcion && r.activo == f.activo
    ensures f.nombre.Some? ==> r.nombre == f.nombre.value
    ensures f.nombre.None? ==> r.nombre == ""
  {
    FacultadForm(f.id_facultad, if f.nombre.Some? then f.nombre.value else "", f.descripcion, f.activo)
  }

  /** A faculty listed without a name cannot be saved from its edit form until one is typed. */
  lemma UnnamedFacultyNeedsName(f: Facultad)
    requires f.nombre.None?
    ensures SaveCheck(EditForm(f)) == Some(NameRequiredMessage)
  {
  }

  const AddForm: FacultadForm := FacultadForm("", "", Some(""), true)

  function ToggleSubject(data: ModalData<FacultadForm>): (string, bool) {
    match data
    case Form(f) => (f.id_facultad, f.activo)
    case ToggleTarget(id, activo, _) => (id, activo)
  }

  function StatusNotice(activo: bool): Notice {
    Shown(if activo then "Facultad dada de baja exitosamente" else "Facultad reactivada exitosamente", false)
  }

  function SavedNotice(kind: ModalKind): Notice {
    Shown(if kind == AddMode then "Facultad creada exitosamente" else "Facultad actualizada exitosamente", false)
  }

  class FacultadCatalog {
    var facultades: seq<Facultad>
    var searchTerm: string
    var filterEstado: string
    var notificationModal: Notice
    var notification: Notice
    var isOpen: bool
    var kind: ModalKind
    var data: ModalData<FacultadForm>

    function Visible(): seq<Facultad>
      reads this
    {
      FilteredFacultades(facultades, searchTerm, filterEstado)
    }

    /** The hook once its load has brought `loaded`. */
    constructor (loaded: seq<Facultad>)
      ensures facultades == loaded && searchTerm == "" && filterEstado == ""
      ensures notificationModal == Hidden && notification == Hidden
      ensures !isOpen && kind == AddMode && data == Form(AddForm)
    {
      facultades := loaded;
      searchTerm, filterEstado := "", "";
      notificationModal, notification := Hidden, Hidden;
      isOpen, kind, data := false, AddMode, Form(AddForm);
    }

    method ToggleStatus(id: string, currentStatus: bool, nombre: Option<string>)
      modifies this
      ensures isOpen && kind == ConfirmToggleMode && data == ToggleTarget(id, currentStatus, nombre)
      ensures notificationModal == Hidden && notification == old(notification) && facultades == old(facultades)
      ensures searchTerm == old(searchTerm) && filterEstado == old(filterEstado)
    {
      notificationModal := Hidden;
      isOpen, kind, data := true, ConfirmToggleMode, ToggleTarget(id, currentStatus, nombre);
    }

    /** `executeToggleStatus`: the endpoint chosen by the confirmed state, then the outcome. */
    method ExecuteToggleStatus(serverError: Option<string>) returns (sent: Request<Payload>)
      modifies this
      ensures sent == ToggleRequest(Base, ToggleSubject(old(data)).0, ToggleSubject(old(data)).1)
      ensures serverError.None? ==> notification == StatusNotice(ToggleSubject(old(data)).1)
                                    && !isOpen && notificationModal == Hidden
      ensures serverError.Some? ==> notificationModal == ErrorNotice(serverError.value, "Error al cambiar el estado")
                                    && notification == old(notification) && isOpen == old(isOpen)
      ensures kind == old(kind) && data == old(data) && facultades == old(facultades)
      ensures searchTerm == old(searchTerm) && filterEstado == old(filterEstado)
    {
      var (id, activo) := ToggleSubject(data);
      sent := ToggleRequest(Base, id, activo);
      if serverError.Some? {
        notificationModal := ErrorNotice(serverError.value, "Error al cambiar el estado");
        return;
      }
      notification := StatusNotice(activo);
      CloseModal();
    }

    method OpenAddModal()
      modifies this
      ensures isOpen && kind == AddMode && data == Form(AddForm) && notificationModal == Hidden
      ensures notification == old(notification) && facultades == old(facultades)
      ensures searchTerm == old(searchTerm) && filterEstado == old(filterEstado)
    {
      notificationModal := Hidden;
      isOpen, kind, data := true, AddMode, Form(AddForm);
    }

    method OpenEditModal(item: Facultad)
      modifies this
      ensures isOpen && kind == EditMode && data == Form(EditForm(item)) && notificationModal == Hidden
      ensures notification == old(notification) && facultades == old(facultades)
      ensures searchTerm == old(searchTerm) && filterEstado == old(filterEstado)
    {
      notificationModal := Hidden;
      isOpen, kind, data := true, EditMode, Form(EditForm(item));
    }

    method CloseModal()
      modifies this
      ensures !isOpen && notificationModal == Hidden
      ensures kind == old(kind) && data == old(data) && notification == old(notification) && facultades == old(facultades)
      ensures searchTerm == old(searchTerm) && filterEstado == old(filterEstado)
    {
      notificationModal := Hidden;
      isOpen := false;
    }

    /** `handleSaveFacultad`: the name check, then the request and its outcome in the modal. */
    method HandleSaveFacultad(f: FacultadForm, serverError: Option<string>) returns (sent: Option<Request<Payload>>)
      modifies this
      ensures SaveCheck(f).Some? ==> sent.None? && notificationModal == Shown(NameRequiredMessage, true)
      ensures SaveCheck(f).None? ==> sent == Some(SaveRequest(Base, kind, f.id_facultad, PayloadOf(f)))
      ensures SaveCheck(f).None? && serverError.None? ==> notificationModal == SavedNotice(kind)
      ensures SaveCheck(f).None? && serverError.Some? ==>
                notificationModal == ErrorNotice(serverError.value, "Error al guardar")
      ensures kind == old(kind) && data == old(data) && isOpen == old(isOpen)
      ensures notification == old(notification) && facultades == old(facultades)
      ensures searchTerm == old(searchTerm) && filterEstado == old(filterEstado)
    {
      if SaveCheck(f).Some? {
        notificationModal := Shown(NameRequiredMessage, true);
        return None;
      }
      sent := Some(SaveRequest(Base, kind, f.id_facultad, PayloadOf(f)));
      if serverError.Some? {
        notificationModal := ErrorNotice(serverError.value, "Error al guardar");
      } else {
        notificationModal := SavedNotice(kind);
      }
    }
  }
}
