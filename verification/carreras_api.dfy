/**
 * `useCarreras` (the API-backed `.jsx` hook): careers filtered by search,
 * faculty and state; a save that checks the required fields and sends an
 * explicit payload; and the confirmed status change.
 */
module CarrerasApi {
  import opened Common
  import opened Catalog
  import Lists

  /** A career as the server lists it. */
  datatype Carrera = Carrera(id_carrera: string, codigo: Option<string>, nombre: Option<string>,
                             descripcion: Option<string>, id_facultad: Field, activo: bool)

  /** The modal form: the add form, or a copy of a career. */
  datatype CarreraForm = CarreraForm(id_carrera: string, codigo: string, nombre: string, descripcion: Option<string>,
                                     id_facultad: Field, activo: bool)

  datatype Payload = Payload(nombre: string, codigo: string, descripcion: string, id_facultad: Field)

  const Base: string := "/carreras"

  predicate MatchesAll(c: Carrera, term: string, filterFacultad: string, filterEstado: string) {
    MatchesSearch(term, [c.nombre, c.codigo])
    && MatchesExact(filterFacultad, c.id_facultad)
    && MatchesEstado(filterEstado, c.activo)
  }

  /** `filteredCarreras`. */
  function FilteredCarreras(carreras: seq<Carrera>, term: string, filterFacultad: string, filterEstado: string)
    : (r: seq<Carrera>)
    ensures forall i :: 0 <= i < |r| ==> r[i] in carreras && MatchesAll(r[i], term, filterFacultad, filterEstado)
    ensures forall i :: 0 <= i < |carreras| && MatchesAll(carreras[i], term, filterFacultad, filterEstado) ==>
              carreras[i] in r
  {
    var keep := (c: Carrera) => MatchesAll(c, term, filterFacultad, filterEstado);
    Lists.FilterMembers(carreras, keep);
    Lists.Filter(carreras, keep)
  }

  /** Choosing a faculty keeps only careers whose faculty id is that very text. */
  lemma FacultyFilterIsExact(carreras: seq<Carrera>, filterFacultad: string)
    requires filterFacultad != ""
    ensures forall i :: 0 <= i < |FilteredCarreras(carreras, "", filterFacultad, "")| ==>
              FilteredCarreras(carreras, "", filterFacultad, "")[i].id_facultad == Str(filterFacultad)
  {
  }

  const RequiredMessage: string := "Facultad, nombre y c\U{00F3}digo son obligatorios."

  /** The required-field check of `handleSaveCarrera`. */
  function SaveCheck(f: CarreraForm): (r: Option<string>)
    ensures r.None? <==> f.codigo != "" && f.nombre != "" && Truthy(f.id_facultad)
    ensures r.Some? ==> r.value == RequiredMessage
  {
    if f.codigo == "" || f.nombre == "" || !Truthy(f.id_facultad) then Some(RequiredMessage) else None
  }

  /** The payload: four fields, a missing description sent as the empty text. */
  function PayloadOf(f: CarreraForm): (p: Payload)
    ensures p.nombre == f.nombre && p.codigo == f.codigo && p.id_facultad == f.id_facultad
    ensures f.descripcion.Some? ==> p.descripcion == f.descripcion.value
    ensures f.descripcion.None? ==> p.descripcion == ""
  {
    Payload(f.nombre, f.codigo, if f.descripcion.Some? then f.descripcion.value else "", f.id_facultad)
  }

  /** `openEditModal`: a copy of the career (absent texts read as empty). */
  function EditForm(c: Carrera): (f: CarreraForm)
    ensures f.id_carrera == c.id_carrera && f.id_facultad == c.id_facultad && f.activo == c.activo
    ensures f.descripcion == c.descripcion
    ensures c.nombre.Some? ==> f.nombre == c.nombre.value
    ensures c.codigo.Some? ==> f.codigo == c.codigo.value
  {
    CarreraForm(c.id_carrera, if c.codigo.Some? then c.codigo.value else "",
                if c.nombre.Some? then c.nombre.value else "", c.descripcion, c.id_facultad, c.activo)
  }

  /** Saving an edit form unchanged sends the career's own fields back. */
  lemma EditPayloadKeepsFields(c: Carrera)
    requires c.nombre.Some? && c.codigo.Some? && c.descripcion.Some?
    ensures PayloadOf(EditForm(c)) == Payload(c.nombre.value, c.codigo.value, c.descripcion.value, c.id_facultad)
  {
  }

  const AddForm: CarreraForm := CarreraForm("", "", "", Some(""), Str(""), true)

  function ToggleSubject(data: ModalData<CarreraForm>): (string, bool) {
    match data
    case Form(f) => (f.id_carrera, f.activo)
    case ToggleTarget(id, activo, _) => (id, activo)
  }

  function StatusNotice(activo: bool): Notice {
    Shown(if activo then "Carrera dada de baja exitosamente" else "Carrera reactivada exitosamente", false)
  }

  function SavedNotice(kind: ModalKind): Notice {
    Shown(if kind == AddMode then "Carrera creada exitosamente" else "Carrera actualizada exitosamente", false)
  }

  class CarreraCatalog {
    var carreras: seq<Carrera>
    var searchTerm: string
    var filterFacultad: string
    var filterEstado: string
    var notificationModal: Notice
    var notification: Notice
    var isOpen: bool
    var kind: ModalKind
    var data: ModalData<CarreraForm>

    function Visible(): seq<Carrera>
      reads this
    {
      FilteredCarreras(carreras, searchTerm, filterFacultad, filterEstado)
    }

    /** The hook once its load has brought `loaded`. */
    constructor (loaded: seq<Carrera>)
      ensures carreras == loaded && searchTerm == "" && filterFacultad == "" && filterEstado == ""
      ensures notificationModal == Hidden && notification == Hidden
      ensures !isOpen && kind == AddMode && data == Form(AddForm)
    {
      carreras := loaded;
      searchTerm, filterFacultad, filterEstado := "", "", "";
      notificationModal, notification := Hidden, Hidden;
      isOpen, kind, data := false, AddMode, Form(AddForm);
    }

    method ToggleStatus(id: string, currentStatus: bool, nombre: Option<string>)
      modifies this
      ensures isOpen && kind == ConfirmToggleMode && data == ToggleTarget(id, currentStatus, nombre)
      ensures notificationModal == Hidden && notification == old(notification) && carreras == old(carreras)
      ensures searchTerm == old(searchTerm) && filterFacultad == old(filterFacultad) && filterEstado == old(filterEstado)
    {
      notificationModal := Hidden;
      isOpen, kind, data := true, ConfirmToggleMode, ToggleTarget(id, currentStatus, nombre);
    }

    /** `executeToggleStatus`: the endpoint chosen by the confirmed state, then the outcome. */
    method ExecuteToggleStatus(serverError: Option<string>) returns (sent: Request<Payload>)
      modifies this
      ensures sent == ToggleRequest(Base, ToggleSubject(old(data)).0, ToggleSubject(old(data)).1)
      ensures serverError.None? ==> notification == StatusNotice(ToggleSubject(old(data)).1)
                                    && !isOpen && notificationModal == Hidden
      ensures serverError.Some? ==> notificationModal == ErrorNotice(serverError.value, "Error al cambiar el estado")
                                    && notification == old(notification) && isOpen == old(isOpen)
      ensures kind == old(kind) && data == old(data) && carreras == old(carreras)
      ensures searchTerm == old(searchTerm) && filterFacultad == old(filterFacultad) && filterEstado == old(filterEstado)
    {
      var (id, activo) := ToggleSubject(data);
      sent := ToggleRequest(Base, id, activo);
      if serverError.Some? {
        notificationModal := ErrorNotice(serverError.value, "Error al cambiar el estado");
        return;
      }
      notification := StatusNotice(activo);
      CloseModal();
    }

    method OpenAddModal()
      modifies this
      ensures isOpen && kind == AddMode && data == Form(AddForm) && notificationModal == Hidden
      ensures notification == old(notification) && carreras == old(carreras)
      ensures searchTerm == old(searchTerm) && filterFacultad == old(filterFacultad) && filterEstado == old(filterEstado)
    {
      notificationModal := Hidden;
      isOpen, kind, data := true, AddMode, Form(AddForm);
    }

    method OpenEditModal(item: Carrera)
      modifies this
      ensures isOpen && kind == EditMode && data == Form(EditForm(item)) && notificationModal == Hidden
      ensures notification == old(notification) && carreras == old(carreras)
      ensures searchTerm == old(searchTerm) && filterFacultad == old(filterFacultad) && filterEstado == old(filterEstado)
    {
      notificationModal := Hidden;
      isOpen, kind, data := true, EditMode, Form(EditForm(item));
    }

    method CloseModal()
      modifies this
      ensures !isOpen && notificationModal == Hidden
      ensures kind == old(kind) && data == old(data) && notification == old(notification) && carreras == old(carreras)
      ensures searchTerm == old(searchTerm) && filterFacultad == old(filterFacultad) && filterEstado == old(filterEstado)
    {
      notificationModal := Hidden;
      isOpen := false;
    }

    /** `handleSaveCarrera`: the check, then the request and its outcome in the modal. */
    method HandleSaveCarrera(f: CarreraForm, serverError: Option<string>) returns (sent: Option<Request<Payload>>)
      modifies this
      ensures SaveCheck(f).Some? ==> sent.None? && notificationModal == Shown(RequiredMessage, true)
      ensures SaveCheck(f).None? ==> sent == Some(SaveRequest(Base, kind, f.id_carrera, PayloadOf(f)))
      ensures SaveCheck(f).None? && serverError.None? ==> notificationModal == SavedNotice(kind)
      ensures SaveCheck(f).None? && serverError.Some? ==>
                notificationModal == ErrorNotice(serverError.value, "Error al procesar la solicitud")
      ensures kind == old(kind) && data == old(data) && isOpen == old(isOpen)
      ensures notification == old(notification) && carreras == old(carreras)
      ensures searchTerm == old(searchTerm) && filterFacultad == old(filterFacultad) && filterEstado == old(filterEstado)
    {
      if SaveCheck(f).Some? {
        notificationModal := Shown(RequiredMessage, true);
        return None;
      }
      sent := Some(SaveRequest(Base, kind, f.id_carrera, PayloadOf(f)));
      if serverError.Some? {
        notificationModal := ErrorNotice(serverError.value, "Error al procesar la solicitud");
      } else {
        notificationModal := SavedNotice(kind);
      }
    }
  }
}
