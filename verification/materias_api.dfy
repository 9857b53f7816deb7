/**
 * `useMaterias` (the API-backed `.jsx` hook): subjects filtered by search,
 * required room type and state; a save that checks the required fields and
 * normalises the hours and the cycle before the request; the edit form
 * built from the subject's first plan link; and the confirmed status change.
 */
module MateriasApi {
  import opened Common
  import opened Catalog
  import Lists

  /** The first entry of `plan_asignatura`: the plan and the cycle it recommends. */
  datatype PlanLink = PlanLink(id_plan_estudio: Field, ciclo_recomendado: Field)

  /** A subject as the server lists it; `planLink` is `plan_asignatura?.[0]`. */
  datatype Materia = Materia(id_asignatura: string, codigo: Option<string>, nombre: Option<string>,
                             requiere_tipo_aula: Field, horas_teoricas: Field, horas_practicas: Field,
                             activo: bool, planLink: Option<PlanLink>)

  /**
   * The modal form, and also the payload once normalised; `activo` is only
   * there when the form was copied from a subject.
   */
  datatype MateriaForm = MateriaForm(id_asignatura: string, codigo: string, nombre: string, requiere_tipo_aula: Field,
                                     horas_teoricas: Field, horas_practicas: Field,
                                     id_plan_estudio: Field, ciclo_recomendado: Field, activo: Option<bool>)

  const Base: string := "/asignaturas"

  predicate MatchesAll(m: Materia, term: string, filterTipoAula: string, filterEstado: string) {
    MatchesSearch(term, [m.nombre, m.codigo])
    && MatchesExact(filterTipoAula, m.requiere_tipo_aula)
    && MatchesEstado(filterEstado, m.activo)
  }

  /** `filteredMaterias`. */
  function FilteredMaterias(materias: seq<Materia>, term: string, filterTipoAula: string, filterEstado: string)
    : (r: seq<Materia>)
    ensures forall i :: 0 <= i < |r| ==> r[i] in materias && MatchesAll(r[i], term, filterTipoAula, filterEstado)
    ensures forall i :: 0 <= i < |materias| && MatchesAll(materias[i], term, filterTipoAula, filterEstado) ==>
              materias[i] in r
  {
    var keep := (m: Materia) => MatchesAll(m, term, filterTipoAula, filterEstado);
    Lists.FilterMembers(materias, keep);
    Lists.Filter(materias, keep)
  }

  /** With no filter set every subject is listed. */
  lemma NoFilterShowsAll(materias: seq<Materia>)
    ensures FilteredMaterias(materias, "", "", "") == materias
  {
    Lists.FilterKeepsAll(materias, (m: Materia) => MatchesAll(m, "", "", ""));
  }

  const RequiredMessage: string := "Todos los campos son obligatorios."

  /** The required-field check of `handleSaveMateria`; hours and room type are optional. */
  function SaveCheck(f: MateriaForm): (r: Option<string>)
    ensures r.None? <==> f.nombre != "" && f.codigo != "" && Truthy(f.id_plan_estudio) && Truthy(f.ciclo_recomendado)
    ensures r.Some? ==> r.value == RequiredMessage
  {
    if f.nombre == "" || f.codigo == "" || !Truthy(f.id_plan_estudio) || !Truthy(f.ciclo_recomendado)
    then Some(RequiredMessage)
    else None
  }

  /** The payload: hours through `parseInt(…) || 0`, the cycle through `parseInt`, the rest as typed. */
  function PayloadOf(f: MateriaForm): (p: MateriaForm)
    ensures p.horas_teoricas == Int(ParseIntOr(f.horas_teoricas, 0))
    ensures p.horas_practicas == Int(ParseIntOr(f.horas_practicas, 0))
    ensures p.ciclo_recomendado == ParseInt(f.ciclo_recomendado)
    ensures p.(horas_teoricas := f.horas_teoricas, horas_practicas := f.horas_practicas,
               ciclo_recomendado := f.ciclo_recomendado) == f
  {
    f.(horas_teoricas := Int(ParseIntOr(f.horas_teoricas, 0)),
       horas_practicas := Int(ParseIntOr(f.horas_practicas, 0)),
       ciclo_recomendado := ParseInt(f.ciclo_recomendado))
  }

  /** A field of the plan link, or the empty text when the link or the field is missing or falsy. */
  function LinkField(v: Field): (r: Field)
    ensures Truthy(v) ==> r == v
    ensures !Truthy(v) ==> r == Str("")
  {
    if Truthy(v) then v else Str("")
  }

  /** An hour count of 0 is shown as empty. */
  function HoursField(h: Field): (r: Field)
    ensures StrictEq(h, Int(0)) ==> r == Str("")
    ensures !StrictEq(h, Int(0)) ==> r == h
  {
    if StrictEq(h, Int(0)) then Str("") else h
  }

  /** `openEditModal`. */
  function EditForm(m: Materia): (f: MateriaForm)
    ensures f.id_asignatura == m.id_asignatura && f.requiere_tipo_aula == m.requiere_tipo_aula && f.activo == Some(m.activo)
    ensures f.horas_teoricas == HoursField(m.horas_teoricas) && f.horas_practicas == HoursField(m.horas_practicas)
    ensures m.planLink.None? ==> f.id_plan_estudio == Str("") && f.ciclo_recomendado == Str("")
    ensures m.planLink.Some? ==> f.id_plan_estudio == LinkField(m.planLink.value.id_plan_estudio)
                                 && f.ciclo_recomendado == LinkField(m.planLink.value.ciclo_recomendado)
  {
    var link := if m.planLink.Some? then m.planLink.value else PlanLink(Undef, Undef);
    MateriaForm(m.id_asignatura,
                if m.codigo.Some? then m.codigo.value else "",
                if m.nombre.Some? then m.nombre.value else "",
                m.requiere_tipo_aula, HoursField(m.horas_teoricas), HoursField(m.horas_practicas),
                LinkField(link.id_plan_estudio), LinkField(link.ciclo_recomendado), Some(m.activo))
  }

  const AddForm: MateriaForm := MateriaForm("", "", "", Str(""), Str(""), Str(""), Str(""), Str(""), None)

  /** Editing and saving a subject unchanged sends its whole-number hours back, 0 included. */
  lemma EditKeepsHours(m: Materia, t: int, p: int)
    requires m.horas_teoricas == Int(t) && m.horas_practicas == Int(p)
    ensures PayloadOf(EditForm(m)).horas_teoricas == Int(t)
    ensures PayloadOf(EditForm(m)).horas_practicas == Int(p)
  {
  }

  /** A subject not linked to a plan cannot be saved from its edit form until a plan is chosen. */
  lemma UnlinkedSubjectNeedsPlan(m: Materia)
    requires m.planLink.None?
    ensures SaveCheck(EditForm(m)) == Some(RequiredMessage)
  {
  }

  /** The id and state `executeToggleStatus` reads from the modal data. */
  function ToggleSubject(data: ModalData<MateriaForm>): (string, bool) {
    match data
    case Form(f) => (f.id_asignatura, f.activo == Some(true))
    case ToggleTarget(id, activo, _) => (id, activo)
  }

  function StatusNotice(activo: bool): Notice {
    Shown(if activo then "Asignatura dada de baja exitosamente" else "Asignatura reactivada exitosamente", false)
  }

  function SavedNotice(kind: ModalKind): Notice {
    Shown(if kind == AddMode then "Asignatura creada correctamente" else "Asignatura actualizada correctamente", false)
  }

  class MateriaCatalog {
    var materias: seq<Materia>
    var searchTerm: string
    var filterTipoAula: string
    var filterEstado: string
    var notificationModal: Notice
    var notification: Notice
    var isOpen: bool
    var kind: ModalKind
    var data: ModalData<MateriaForm>

    function Visible(): seq<Materia>
      reads this
    {
      FilteredMaterias(materias, searchTerm, filterTipoAula, filterEstado)
    }

    /** The hook once its load has brought `loaded`. */
    constructor (loaded: seq<Materia>)
      ensures materias == loaded && searchTerm == "" && filterTipoAula == "" && filterEstado == ""
      ensures notificationModal == Hidden && notification == Hidden
      ensures !isOpen && kind == AddMode && data == Form(AddForm)
      ensures Visible() == loaded
    {
      materias := loaded;
      searchTerm, filterTipoAula, filterEstado := "", "", "";
      notificationModal, notification := Hidden, Hidden;
      isOpen, kind, data := false, AddMode, Form(AddForm);
      NoFilterShowsAll(loaded);
    }

    method ToggleStatus(id: string, currentStatus: bool, nombre: Option<string>)
      modifies this
      ensures isOpen && kind == ConfirmToggleMode && data == ToggleTarget(id, currentStatus, nombre)
      ensures notificationModal == Hidden && notification == old(notification) && materias == old(materias)
      ensures searchTerm == old(searchTerm) && filterTipoAula == old(filterTipoAula) && filterEstado == old(filterEstado)
    {
      notificationModal := Hidden;
      isOpen, kind, data := true, ConfirmToggleMode, ToggleTarget(id, currentStatus, nombre);
    }

    /** `executeToggleStatus`: the endpoint chosen by the confirmed state, then the outcome. */
    method ExecuteToggleStatus(serverError: Option<string>) returns (sent: Request<MateriaForm>)
      modifies this
      ensures sent == ToggleRequest(Base, ToggleSubject(old(data)).0, ToggleSubject(old(data)).1)
      ensures serverError.None? ==> notification == StatusNotice(ToggleSubject(old(data)).1)
                                    && !isOpen && notificationModal == Hidden
      ensures serverError.Some? ==> notificationModal == ErrorNotice(serverError.value, "Error al cambiar el estado")
                                    && notification == old(notification) && isOpen == old(isOpen)
      ensures kind == old(kind) && data == old(data) && materias == old(materias)
      ensures searchTerm == old(searchTerm) && filterTipoAula == old(filterTipoAula) && filterEstado == old(filterEstado)
    {
      var (id, activo) := ToggleSubject(data);
      sent := ToggleRequest(Base, id, activo);
      if serverError.Some? {
        notificationModal := ErrorNotice(serverError.value, "Error al cambiar el estado");
        return;
      }
      notification := StatusNotice(activo);
      CloseModal();
    }

    method OpenAddModal()
      modifies this
      ensures isOpen && kind == AddMode && data == Form(AddForm) && notificationModal == Hidden
      ensures notification == old(notification) && materias == old(materias)
      ensures searchTerm == old(searchTerm) && filterTipoAula == old(filterTipoAula) && filterEstado == old(filterEstado)
    {
      notificationModal := Hidden;
      isOpen, kind, data := true, AddMode, Form(AddForm);
    }

    method OpenEditModal(item: Materia)
      modifies this
      ensures isOpen && kind == EditMode && data == Form(EditForm(item)) && notificationModal == Hidden
      ensures notification == old(notification) && materias == old(materias)
      ensures searchTerm == old(searchTerm) && filterTipoAula == old(filterTipoAula) && filterEstado == old(filterEstado)
    {
      notificationModal := Hidden;
      isOpen, kind, data := true, EditMode, Form(EditForm(item));
    }

    method CloseModal()
      modifies this
      ensures !isOpen && notificationModal == Hidden
      ensures kind == old(kind) && data == old(data) && notification == old(notification) && materias == old(materias)
      ensures searchTerm == old(searchTerm) && filterTipoAula == old(filterTipoAula) && filterEstado == old(filterEstado)
    {
      notificationModal := Hidden;
      isOpen := false;
    }

    /**
     * `handleSaveMateria`: a missing field shows the error and sends nothing;
     * otherwise the normalised payload goes to the create or update address
     * and the modal shows the outcome.
     */
    method HandleSaveMateria(f: MateriaForm, serverError: Option<string>) returns (sent: Option<Request<MateriaForm>>)
      modifies this
      ensures SaveCheck(f).Some? ==> sent.None? && notificationModal == Shown(RequiredMessage, true)
      ensures SaveCheck(f).None? ==> sent == Some(SaveRequest(Base, kind, f.id_asignatura, PayloadOf(f)))
      ensures SaveCheck(f).None? && serverError.None? ==> notificationModal == SavedNotice(kind)
      ensures SaveCheck(f).None? && serverError.Some? ==>
                notificationModal == ErrorNotice(serverError.value, "Error al procesar la solicitud")
      ensures kind == old(kind) && data == old(data) && isOpen == old(isOpen)
      ensures notification == old(notification) && materias == old(materias)
      ensures searchTerm == old(searchTerm) && filterTipoAula == old(filterTipoAula) && filterEstado == old(filterEstado)
    {
      if SaveCheck(f).Some? {
        notificationModal := Shown(RequiredMessage, true);
        return None;
      }
      sent := Some(SaveRequest(Base, kind, f.id_asignatura, PayloadOf(f)));
      if serverError.Some? {
        notificationModal := ErrorNotice(serverError.value, "Error al procesar la solicitud");
      } else {
        notificationModal := SavedNotice(kind);
      }
    }
  }
}
