/**
 * `useDecanos`: the dean table (search, state and faculty filters), the
 * two-step status toggle through a confirmation modal, and add/edit of a
 * dean with the faculty name looked up in the faculty list.
 */
module Decanos {
  import opened Common
  import opened Catalog
  import Lists

  /** A dean; `facultadNombre` is `facultad.nombre`, absent when the lookup failed. */
  datatype Decano = Decano(id_administrador: string, nombres: string, apellidos: string, correo: string,
                           id_facultad: string, facultadNombre: Option<string>, activo: bool)

  datatype FacultadRef = FacultadRef(id_facultad: string, nombre: string)

  /** The modal form; the e-mail field is `email`, not `correo`. */
  datatype DecanoForm = DecanoForm(id_administrador: string, nombres: string, apellidos: string, email: string,
                                   id_facultad: string, activo: bool)

  function Id(d: Decano): string { d.id_administrador }

  predicate MatchesAll(d: Decano, term: string, filterEstado: string, filterFacultad: string) {
    MatchesSearch(term, [Some(d.nombres), Some(d.apellidos), Some(d.correo)])
    && MatchesEstado(filterEstado, d.activo)
    && (filterFacultad == "" || d.id_facultad == filterFacultad)
  }

  /** `filteredDecanos`. */
  function FilteredDecanos(decanos: seq<Decano>, term: string, filterEstado: string, filterFacultad: string)
    : (r: seq<Decano>)
    ensures forall i :: 0 <= i < |r| ==> r[i] in decanos && MatchesAll(r[i], term, filterEstado, filterFacultad)
    ensures forall i :: 0 <= i < |decanos| && MatchesAll(decanos[i], term, filterEstado, filterFacultad) ==>
              decanos[i] in r
  {
    var keep := (d: Decano) => MatchesAll(d, term, filterEstado, filterFacultad);
    Lists.FilterMembers(decanos, keep);
    Lists.Filter(decanos, keep)
  }

  /** `facultades.find(f => f.id_facultad === id)?.nombre`. */
  function FacultyName(facultades: seq<FacultadRef>, id: string): (r: Option<string>)
    ensures r.None? <==> forall i :: 0 <= i < |facultades| ==> facultades[i].id_facultad != id
    ensures r.Some? ==> exists i :: 0 <= i < |facultades| && facultades[i].id_facultad == id
                                  && facultades[i].nombre == r.value
  {
    match Lists.Find(facultades, (f: FacultadRef) => f.id_facultad == id)
    case None => None
    case Some(f) => Some(f.nombre)
  }

  const RequiredMessage: string := "Nombre, apellidos y facultad son obligatorios."
  const EmailRequiredMessage: string := "El correo es obligatorio para crear el usuario."

  /** The two checks of `handleSaveDecano`; only adding needs an e-mail. */
  function SaveCheck(f: DecanoForm, kind: ModalKind): (r: Option<string>)
    ensures (f.nombres == "" || f.apellidos == "" || f.id_facultad == "") ==> r == Some(RequiredMessage)
    ensures f.nombres != "" && f.apellidos != "" && f.id_facultad != "" && kind == AddMode && f.email == "" ==>
              r == Some(EmailRequiredMessage)
    ensures r.None? <==> f.nombres != "" && f.apellidos != "" && f.id_facultad != "" && (kind == AddMode ==> f.email != "")
  {
    if f.nombres == "" || f.apellidos == "" || f.id_facultad == "" then Some(RequiredMessage)
    else if kind == AddMode && f.email == "" then Some(EmailRequiredMessage)
    else None
  }

  /** The dean an add creates: `correo` is the form's e-mail. */
  function NewDecano(f: DecanoForm, id: string, facultades: seq<FacultadRef>): (d: Decano)
    ensures d.id_administrador == id && d.correo == f.email && d.activo
    ensures d.nombres == f.nombres && d.apellidos == f.apellidos && d.id_facultad == f.id_facultad
    ensures d.facultadNombre == FacultyName(facultades, f.id_facultad)
  {
    Decano(id, f.nombres, f.apellidos, f.email, f.id_facultad, FacultyName(facultades, f.id_facultad), true)
  }

  /** An edit: only the names and the faculty change. */
  function EditedDecano(d: Decano, f: DecanoForm, facultades: seq<FacultadRef>): (e: Decano)
    ensures e.id_administrador == d.id_administrador && e.correo == d.correo && e.activo == d.activo
    ensures e.nombres == f.nombres && e.apellidos == f.apellidos && e.id_facultad == f.id_facultad
    ensures e.facultadNombre == FacultyName(facultades, f.id_facultad)
  {
    d.(nombres := f.nombres, apellidos := f.apellidos, id_facultad := f.id_facultad,
       facultadNombre := FacultyName(facultades, f.id_facultad))
  }

  /** The row update an edit applies to the rows with the form's id. */
  function Editor(f: DecanoForm, facultades: seq<FacultadRef>): Decano -> Decano {
    (d: Decano) => EditedDecano(d, f, facultades)
  }

  /** The row update of a status change: `{ ...d, activo }`. */
  function SetActivo(activo: bool): Decano -> Decano {
    (d: Decano) => d.(activo := activo)
  }

  /** A status change keeps every dean's id, so the ids stay unique. */
  lemma SetActivoKeepsIds(decanos: seq<Decano>, id: string, activo: bool)
    ensures UniqueIds(decanos, Id) ==> UniqueIds(UpdateById(decanos, Id, id, SetActivo(activo)), Id)
  {
    UpdateKeepsUnique(decanos, Id, id, SetActivo(activo));
  }

  /** Adding a dean under a fresh id keeps the ids unique. */
  lemma AddKeepsIds(decanos: seq<Decano>, added: Decano)
    ensures UniqueIds(decanos, Id) && !HasId(decanos, Id, added.id_administrador) ==> UniqueIds(decanos + [added], Id)
  {
    if UniqueIds(decanos, Id) && !HasId(decanos, Id, added.id_administrador) {
      AppendFreshKeepsUnique(decanos, Id, added);
    }
  }

  /** An edit keeps every dean's id, so the ids stay unique. */
  lemma EditorKeepsIds(decanos: seq<Decano>, f: DecanoForm, facultades: seq<FacultadRef>)
    ensures UniqueIds(decanos, Id) ==> UniqueIds(UpdateById(decanos, Id, f.id_administrador, Editor(f, facultades)), Id)
  {
    UpdateKeepsUnique(decanos, Id, f.id_administrador, Editor(f, facultades));
  }

  /** `openEditModal`: the form copies `correo` into `email`. */
  function EditForm(d: Decano): (f: DecanoForm)
    ensures f.email == d.correo && f.id_administrador == d.id_administrador && f.activo == d.activo
    ensures f.nombres == d.nombres && f.apellidos == d.apellidos && f.id_facultad == d.id_facultad
  {
    DecanoForm(d.id_administrador, d.nombres, d.apellidos, d.correo, d.id_facultad, d.activo)
  }

  const AddForm: DecanoForm := DecanoForm("", "", "", "", "", true)

  /** Saving an edit form unchanged gives back the dean, with the faculty name looked up again. */
  lemma EditRoundTrip(d: Decano, facultades: seq<FacultadRef>)
    ensures EditedDecano(d, EditForm(d), facultades) == d.(facultadNombre := FacultyName(facultades, d.id_facultad))
  {
  }

  function StatusNotice(activo: bool): Notice {
    Shown(if activo then "Decano dado de baja" else "Decano reactivado", false)
  }

  function SavedNotice(kind: ModalKind): Notice {
    Shown(if kind == AddMode then "Decano registrado exitosamente" else "Decano actualizado exitosamente", false)
  }

  /** The id and state `executeToggleStatus` reads from the modal. */
  function ToggleSubject(data: ModalData<DecanoForm>): (string, bool) {
    match data
    case Form(f) => (f.id_administrador, f.activo)
    case ToggleTarget(id, activo, _) => (id, activo)
  }

  class DecanoPanel {
    var decanos: seq<Decano>
    var facultades: seq<FacultadRef>
    var searchTerm: string
    var filterEstado: string
    var filterFacultad: string
    var isOpen: bool
    var kind: ModalKind
    var data: Option<ModalData<DecanoForm>>
    var notificationModal: Notice
    var notification: Notice

    function Visible(): seq<Decano>
      reads this
    {
      FilteredDecanos(decanos, searchTerm, filterEstado, filterFacultad)
    }

    predicate Valid()
      reads this
    {
      UniqueIds(decanos, Id)
    }

    /** The hook after its load: the deans and faculties fetched, no filter, no modal. */
    constructor (loadedDecanos: seq<Decano>, loadedFacultades: seq<FacultadRef>)
      ensures decanos == loadedDecanos && facultades == loadedFacultades
      ensures searchTerm == "" && filterEstado == "" && filterFacultad == ""
      ensures !isOpen && kind == ViewMode && data.None? && notificationModal == Hidden && notification == Hidden
    {
      decanos, facultades := loadedDecanos, loadedFacultades;
      searchTerm, filterEstado, filterFacultad := "", "", "";
      isOpen, kind, data := false, ViewMode, None;
      notificationModal, notification := Hidden, Hidden;
    }

    /** `toggleStatus`: only opens the confirmation modal. */
    method ToggleStatus(id: string, currentStatus: bool, nombre: string)
      modifies this
      ensures isOpen && kind == ConfirmToggleMode && data == Some(ToggleTarget(id, currentStatus, Some(nombre)))
      ensures notificationModal == Hidden
      ensures decanos == old(decanos) && facultades == old(facultades) && notification == old(notification)
      ensures searchTerm == old(searchTerm) && filterEstado == old(filterEstado) && filterFacultad == old(filterFacultad)
    {
      notificationModal := Hidden;
      isOpen, kind, data := true, ConfirmToggleMode, Some(ToggleTarget(id, currentStatus, Some(nombre)));
    }

    /**
     * `executeToggleStatus`: the rows with the modal's id get the opposite of
     * the modal's state, and the modal closes. Without modal data the
     * destructuring throws and nothing changes.
     */
    method ExecuteToggleStatus()
      modifies this
      ensures old(data).None? ==> decanos == old(decanos) && isOpen == old(isOpen) && notification == old(notification)
                                  && notificationModal == old(notificationModal)
      ensures old(data).Some? ==>
                var (id, activo) := ToggleSubject(old(data).value);
                && decanos == UpdateById(old(decanos), Id, id, SetActivo(!activo))
                && notification == StatusNotice(activo)
                && !isOpen && notificationModal == Hidden
      ensures kind == old(kind) && data == old(data) && facultades == old(facultades)
      ensures searchTerm == old(searchTerm) && filterEstado == old(filterEstado) && filterFacultad == old(filterFacultad)
      ensures old(Valid()) ==> Valid()
    {
      if data.None? {
        return;
      }
      var (id, activo) := ToggleSubject(data.value);
      SetActivoKeepsIds(decanos, id, !activo);
      decanos := UpdateById(decanos, Id, id, SetActivo(!activo));
      notification := StatusNotice(activo);
      notificationModal := Hidden;
      isOpen := false;
    }

    method OpenAddModal()
      modifies this
      ensures isOpen && kind == AddMode && data == Some(Form(AddForm)) && notificationModal == Hidden
      ensures decanos == old(decanos) && facultades == old(facultades) && notification == old(notification)
      ensures searchTerm == old(searchTerm) && filterEstado == old(filterEstado) && filterFacultad == old(filterFacultad)
    {
      notificationModal := Hidden;
      isOpen, kind, data := true, AddMode, Some(Form(AddForm));
    }

    method OpenEditModal(d: Decano)
      modifies this
      ensures isOpen && kind == EditMode && data == Some(Form(EditForm(d))) && notificationModal == Hidden
      ensures decanos == old(decanos) && facultades == old(facultades) && notification == old(notification)
      ensures searchTerm == old(searchTerm) && filterEstado == old(filterEstado) && filterFacultad == old(filterFacultad)
    {
      notificationModal := Hidden;
      isOpen, kind, data := true, EditMode, Some(Form(EditForm(d)));
    }

    method CloseModal()
      modifies this
      ensures !isOpen && notificationModal == Hidden
      ensures kind == old(kind) && data == old(data) && decanos == old(decanos) && facultades == old(facultades)
      ensures notification == old(notification)
      ensures searchTerm == old(searchTerm) && filterEstado == old(filterEstado) && filterFacultad == old(filterFacultad)
    {
      notificationModal := Hidden;
      isOpen := false;
    }

    /**
     * `handleSaveDecano`: a failed check shows its notice and changes
     * nothing; add appends a new dean with a fresh id; edit rewrites the
     * names and faculty of the rows with the form's id.
     */
    method HandleSaveDecano(f: DecanoForm, freshId: string)
      modifies this
      ensures SaveCheck(f, kind).Some? ==>
                decanos == old(decanos) && notificationModal == Shown(SaveCheck(f, kind).value, true)
      ensures SaveCheck(f, kind).None? && kind == AddMode ==>
                decanos == old(decanos) + [NewDecano(f, freshId, facultades)]
      ensures SaveCheck(f, kind).None? && kind != AddMode ==>
                decanos == UpdateById(old(decanos), Id, f.id_administrador, Editor(f, facultades))
      ensures SaveCheck(f, kind).None? ==> notificationModal == SavedNotice(kind)
      ensures kind == old(kind) && data == old(data) && isOpen == old(isOpen) && facultades == old(facultades)
      ensures notification == old(notification)
      ensures searchTerm == old(searchTerm) && filterEstado == old(filterEstado) && filterFacultad == old(filterFacultad)
      ensures old(Valid()) && !HasId(old(decanos), Id, freshId) ==> Valid()
    {
      var check := SaveCheck(f, kind);
      if check.Some? {
        notificationModal := Shown(check.value, true);
        return;
      }
      if kind == AddMode {
        AddKeepsIds(decanos, NewDecano(f, freshId, facultades));
        decanos := decanos + [NewDecano(f, freshId, facultades)];
      } else {
        EditorKeepsIds(decanos, f, facultades);
        decanos := UpdateById(decanos, Id, f.id_administrador, Editor(f, facultades));
      }
      notificationModal := SavedNotice(kind);
    }
  }
}
