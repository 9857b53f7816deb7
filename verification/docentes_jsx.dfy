/**
 * `useDocentes` (the `.jsx` hook): the teacher table with search, type and
 * state filters, a confirmed status toggle, the details modal with the
 * teaching history, and add/edit through a modal that reports in a
 * notification instead of an alert.
 */
module DocentesJsx {
  import opened Common
  import opened Catalog
  import Lists
  import DocentesJs

  type Docente = DocentesJs.Docente
  type HistoryEntry = DocentesJs.HistoryEntry

  predicate MatchesAll(d: Docente, term: string, filterTipo: string, filterEstado: string) {
    MatchesSearch(term, [Some(d.nombres), Some(d.apellidos)])
    && (filterTipo == "" || d.tipo == filterTipo)
    && MatchesEstado(filterEstado, d.activo)
  }

  /** `filteredDocentes`: the three filters together. */
  function FilteredDocentes(docentes: seq<Docente>, term: string, filterTipo: string, filterEstado: string)
    : (r: seq<Docente>)
    ensures forall i :: 0 <= i < |r| ==> r[i] in docentes && MatchesAll(r[i], term, filterTipo, filterEstado)
    ensures forall i :: 0 <= i < |docentes| && MatchesAll(docentes[i], term, filterTipo, filterEstado) ==>
              docentes[i] in r
  {
    var keep := (d: Docente) => MatchesAll(d, term, filterTipo, filterEstado);
    Lists.FilterMembers(docentes, keep);
    Lists.Filter(docentes, keep)
  }

  /** With no filter set the table shows every teacher. */
  lemma NoFilterShowsAll(docentes: seq<Docente>)
    ensures FilteredDocentes(docentes, "", "", "") == docentes
  {
    Lists.FilterKeepsAll(docentes, (d: Docente) => MatchesAll(d, "", "", ""));
  }

  const AllRequiredMessage: string := "Todos los campos son obligatorios."

  /** The required-field check of `handleSaveDocente`. */
  function SaveCheck(f: Docente): (r: Option<string>)
    ensures r.None? <==> f.nombres != "" && f.apellidos != "" && Truthy(f.carga_maxima)
    ensures r.Some? ==> r.value == AllRequiredMessage
  {
    if f.nombres == "" || f.apellidos == "" || !Truthy(f.carga_maxima) then Some(AllRequiredMessage) else None
  }

  /** `dataToSave`: the load becomes `parseInt(…) || 0`. */
  function DataToSave(f: Docente): (d: Docente)
    ensures d == f.(carga_maxima := Int(ParseIntOr(f.carga_maxima, 0)))
    ensures d.carga_maxima.Int?
  {
    f.(carga_maxima := Int(ParseIntOr(f.carga_maxima, 0)))
  }

  /** The form `openAddModal` starts from: an empty load. */
  const AddForm: Docente := DocentesJs.Docente("", "", "", DocentesJs.DefaultTipo, Str(""), true)

  /** The form `openEditModal` fills: a load of 0 is shown as empty. */
  function EditForm(d: Docente): (f: Docente)
    ensures StrictEq(d.carga_maxima, Int(0)) ==> f == d.(carga_maxima := Str(""))
    ensures !StrictEq(d.carga_maxima, Int(0)) ==> f == d
  {
    if StrictEq(d.carga_maxima, Int(0)) then d.(carga_maxima := Str("")) else d
  }

  /** A teacher with load 0, opened for editing and saved unchanged, fails the required check. */
  lemma ZeroLoadCannotBeResaved(d: Docente)
    requires d.carga_maxima == Int(0)
    ensures SaveCheck(EditForm(d)) == Some(AllRequiredMessage)
  {
  }

  /** Every other teacher that passed the check once passes it again after an edit round trip. */
  lemma NonZeroLoadCanBeResaved(d: Docente)
    requires SaveCheck(d).None? && d.carga_maxima != Int(0)
    ensures SaveCheck(EditForm(d)).None?
  {
  }

  function StatusNotice(currentStatus: bool): Notice {
    Shown(if currentStatus then "Docente dado de baja" else "Docente reactivado", false)
  }

  function SavedNotice(kind: ModalKind): Notice {
    Shown(if kind == AddMode then "Docente registrado" else "Docente actualizado", false)
  }

  class DocentePanel {
    var docentes: seq<Docente>
    var searchTerm: string
    var filterTipo: string
    var filterEstado: string
    var teachingHistory: seq<HistoryEntry>
    var isOpen: bool
    var kind: ModalKind
    var data: Option<Docente>
    var notificationModal: Notice
    var notification: Notice

    function Visible(): seq<Docente>
      reads this
    {
      FilteredDocentes(docentes, searchTerm, filterTipo, filterEstado)
    }

    predicate Valid()
      reads this
    {
      UniqueIds(docentes, DocentesJs.Id)
    }

    /** The hook after its load: the list fetched (the mock teachers) and nothing else set. */
    constructor (loaded: seq<Docente>)
      ensures docentes == loaded && searchTerm == "" && filterTipo == "" && filterEstado == ""
      ensures teachingHistory == [] && !isOpen && kind == ViewMode && data.None?
      ensures notificationModal == Hidden && notification == Hidden
    {
      docentes := loaded;
      searchTerm, filterTipo, filterEstado := "", "", "";
      teachingHistory := [];
      isOpen, kind, data := false, ViewMode, None;
      notificationModal, notification := Hidden, Hidden;
    }

    /**
     * `toggleStatus(id, currentStatus)`: nothing unless confirmed; then the
     * rows with that id get `activo = !currentStatus`, whatever they held.
     */
    method ToggleStatus(id: string, currentStatus: bool, confirmed: bool)
      modifies this
      ensures !confirmed ==> docentes == old(docentes) && notification == old(notification)
      ensures confirmed ==> docentes == UpdateById(old(docentes), DocentesJs.Id, id, (d: Docente) => d.(activo := !currentStatus))
      ensures confirmed ==> notification == StatusNotice(currentStatus)
      ensures searchTerm == old(searchTerm) && filterTipo == old(filterTipo) && filterEstado == old(filterEstado)
      ensures teachingHistory == old(teachingHistory) && isOpen == old(isOpen) && kind == old(kind) && data == old(data)
      ensures notificationModal == old(notificationModal)
      ensures old(Valid()) ==> Valid()
    {
      if confirmed {
        var setTo := (d: Docente) => d.(activo := !currentStatus);
        var r := UpdateById(docentes, DocentesJs.Id, id, setTo);
        assert forall i :: 0 <= i < |docentes| ==> DocentesJs.Id(r[i]) == DocentesJs.Id(docentes[i]);
        docentes := r;
        notification := StatusNotice(currentStatus);
      }
    }

    method OpenDetailsModal(d: Docente, history: seq<HistoryEntry>)
      modifies this
      ensures teachingHistory == DocentesJs.HistoryOf(history, d.id_docente)
      ensures isOpen && kind == DetailsMode && data == Some(d) && notificationModal == Hidden
      ensures docentes == old(docentes) && notification == old(notification)
      ensures searchTerm == old(searchTerm) && filterTipo == old(filterTipo) && filterEstado == old(filterEstado)
    {
      teachingHistory := DocentesJs.HistoryOf(history, d.id_docente);
      notificationModal := Hidden;
      isOpen, kind, data := true, DetailsMode, Some(d);
    }

    method OpenAddModal()
      modifies this
      ensures isOpen && kind == AddMode && data == Some(AddForm) && notificationModal == Hidden
      ensures docentes == old(docentes) && notification == old(notification) && teachingHistory == old(teachingHistory)
      ensures searchTerm == old(searchTerm) && filterTipo == old(filterTipo) && filterEstado == old(filterEstado)
    {
      notificationModal := Hidden;
      isOpen, kind, data := true, AddMode, Some(AddForm);
    }

    method OpenEditModal(d: Docente)
      modifies this
      ensures isOpen && kind == EditMode && data == Some(EditForm(d)) && notificationModal == Hidden
      ensures docentes == old(docentes) && notification == old(notification) && teachingHistory == old(teachingHistory)
      ensures searchTerm == old(searchTerm) && filterTipo == old(filterTipo) && filterEstado == old(filterEstado)
    {
      notificationModal := Hidden;
      isOpen, kind, data := true, EditMode, Some(EditForm(d));
    }

    /** `closeModal`: hides the modal and its notice and empties the history. */
    method CloseModal()
      modifies this
      ensures !isOpen && teachingHistory == [] && notificationModal == Hidden
      ensures kind == old(kind) && data == old(data) && docentes == old(docentes) && notification == old(notification)
      ensures searchTerm == old(searchTerm) && filterTipo == old(filterTipo) && filterEstado == old(filterEstado)
    {
      notificationModal := Hidden;
      isOpen := false;
      teachingHistory := [];
    }

    /**
     * `handleSaveDocente`: a missing field shows the error notice and changes
     * nothing; otherwise the normalised form is appended (add, fresh id) or
     * replaces the row with its id (edit), and the success notice shows.
     */
    method HandleSaveDocente(formData: Docente, freshId: string)
      modifies this
      ensures SaveCheck(formData).Some? ==>
                docentes == old(docentes) && notificationModal == Shown(AllRequiredMessage, true)
      ensures SaveCheck(formData).None? && kind == AddMode ==>
                docentes == old(docentes) + [DataToSave(formData).(id_docente := freshId, activo := true)]
      ensures SaveCheck(formData).None? && kind != AddMode ==>
                docentes == ReplaceById(old(docentes), DocentesJs.Id, formData.id_docente, DataToSave(formData))
      ensures SaveCheck(formData).None? ==> notificationModal == SavedNotice(kind)
      ensures kind == old(kind) && data == old(data) && isOpen == old(isOpen) && notification == old(notification)
      ensures teachingHistory == old(teachingHistory)
      ensures searchTerm == old(searchTerm) && filterTipo == old(filterTipo) && filterEstado == old(filterEstado)
      ensures old(Valid()) && !HasId(old(docentes), DocentesJs.Id, freshId) ==> Valid()
    {
      var check := SaveCheck(formData);
      if check.Some? {
        notificationModal := Shown(check.value, true);
        return;
      }
      var dataToSave := DataToSave(formData);
      if kind == AddMode {
        var added := dataToSave.(id_docente := freshId, activo := true);
        if Valid() && !HasId(docentes, DocentesJs.Id, freshId) {
          AppendFreshKeepsUnique(docentes, DocentesJs.Id, added);
        }
        docentes := docentes + [added];
      } else {
        ReplaceKeepsIds(docentes, DocentesJs.Id, dataToSave);
        docentes := ReplaceById(docentes, DocentesJs.Id, dataToSave.id_docente, dataToSave);
      }
      notificationModal := SavedNotice(kind);
    }
  }
}
