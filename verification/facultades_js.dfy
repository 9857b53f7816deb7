/**
 * `useFacultades` (the in-memory `.js` hook): faculties searched by name or
 * code, saved when named and coded, deleted and toggled in place.
 */
module FacultadesJs {
  import opened Common
  import opened Catalog
  import Lists

  datatype Facultad = Facultad(id_facultad: string, nombre: string, codigo: string, activo: bool)

  function Id(f: Facultad): string { f.id_facultad }
  function Flip(f: Facultad): Facultad { f.(activo := !f.activo) }

  /** Flipping the rows with one id keeps the ids, and flipping them again restores the list. */
  lemma FlipTwice(s: seq<Facultad>, id: string)
    ensures UpdateById(UpdateById(s, Id, id, Flip), Id, id, Flip) == s
    ensures UniqueIds(s, Id) ==> UniqueIds(UpdateById(s, Id, id, Flip), Id)
  {
    UpdateTwiceRestores(s, Id, id, Flip);
  }

  predicate Matches(term: string, f: Facultad) {
    MatchesSearch(term, [Some(f.nombre), Some(f.codigo)])
  }

  /** `filteredFacultades`: all faculties for an empty search, else those matching it. */
  function FilteredFacultades(facultades: seq<Facultad>, term: string): (r: seq<Facultad>)
    ensures term == "" ==> r == facultades
    ensures forall i :: 0 <= i < |r| ==> r[i] in facultades && Matches(term, r[i])
    ensures forall i :: 0 <= i < |facultades| && Matches(term, facultades[i]) ==> facultades[i] in r
  {
    if term == "" then facultades
    else
      var keep := (f: Facultad) => Matches(term, f);
      Lists.FilterMembers(facultades, keep);
      Lists.Filter(facultades, keep)
  }

  /** A faculty is found by its code in any case. */
  lemma FoundByCode(facultades: seq<Facultad>, k: nat)
    requires k < |facultades|
    ensures facultades[k] in FilteredFacultades(facultades, Lower(facultades[k].codigo))
  {
    FieldMatchesItself(facultades[k].codigo);
    var fields := [Some(facultades[k].nombre), Some(facultades[k].codigo)];
    assert FieldMatches(Lower(facultades[k].codigo), fields[1]);
  }

  const RequiredMessage: string := "Nombre y C\U{00F3}digo son obligatorios"

  function SaveCheck(f: Facultad): (r: Option<string>)
    ensures r.None? <==> f.nombre != "" && f.codigo != ""
    ensures r.Some? ==> r.value == RequiredMessage
  {
    if f.nombre == "" || f.codigo == "" then Some(RequiredMessage) else None
  }

  const AddForm: Facultad := Facultad("", "", "", true)

  class FacultadStore {
    var facultades: seq<Facultad>
    var searchTerm: string
    var isOpen: bool
    var kind: ModalKind
    var data: Option<Facultad>

    /** The list the hook hands out. */
    function Visible(): seq<Facultad>
      reads this
    {
      FilteredFacultades(facultades, searchTerm)
    }

    predicate Valid()
      reads this
    {
      UniqueIds(facultades, Id)
    }

    constructor (initial: seq<Facultad>)
      ensures facultades == initial && searchTerm == "" && !isOpen && kind == AddMode && data.None?
      ensures Visible() == initial
    {
      facultades := initial;
      searchTerm := "";
      isOpen, kind, data := false, AddMode, None;
    }

    method SetSearchTerm(term: string)
      modifies this
      ensures searchTerm == term && facultades == old(facultades)
      ensures isOpen == old(isOpen) && kind == old(kind) && data == old(data)
    {
      searchTerm := term;
    }

    method OpenAddModal()
      modifies this
      ensures isOpen && kind == AddMode && data == Some(AddForm)
      ensures facultades == old(facultades) && searchTerm == old(searchTerm)
    {
      isOpen, kind, data := true, AddMode, Some(AddForm);
    }

    method OpenEditModal(item: Facultad)
      modifies this
      ensures isOpen && kind == EditMode && data == Some(item)
      ensures facultades == old(facultades) && searchTerm == old(searchTerm)
    {
      isOpen, kind, data := true, EditMode, Some(item);
    }

    method CloseModal()
      modifies this
      ensures !isOpen && kind == old(kind) && data == old(data)
      ensures facultades == old(facultades) && searchTerm == old(searchTerm)
    {
      isOpen := false;
    }

    /**
     * `handleSaveFacultad`: missing data is alerted and changes nothing; add
     * appends the form with a fresh id, edit replaces the row with the
     * form's id; then the modal closes.
     */
    method HandleSaveFacultad(formData: Facultad, freshId: string) returns (alert: Option<string>)
      modifies this
      ensures alert == SaveCheck(formData)
      ensures alert.Some? ==> facultades == old(facultades) && isOpen == old(isOpen)
      ensures alert.None? && old(kind) == AddMode ==>
                facultades == old(facultades) + [formData.(id_facultad := freshId, activo := true)]
      ensures alert.None? && old(kind) != AddMode ==>
                facultades == ReplaceById(old(facultades), Id, formData.id_facultad, formData)
      ensures alert.None? ==> !isOpen
      ensures kind == old(kind) && data == old(data) && searchTerm == old(searchTerm)
      ensures old(Valid()) && !HasId(old(facultades), Id, freshId) ==> Valid()
    {
      alert := SaveCheck(formData);
      if alert.Some? {
        return;
      }
      if kind == AddMode {
        var added := formData.(id_facultad := freshId, activo := true);
        if Valid() && !HasId(facultades, Id, freshId) {
          AppendFreshKeepsUnique(facultades, Id, added);
        }
        facultades := facultades + [added];
      } else {
        ReplaceKeepsIds(facultades, Id, formData);
        facultades := ReplaceById(facultades, Id, formData.id_facultad, formData);
      }
      CloseModal();
    }

    /** `deleteFacultad`: removes that id, only when confirmed. */
    method DeleteFacultad(id: string, confirmed: bool)
      modifies this
      ensures facultades == (if confirmed then RemoveById(old(facultades), Id, id) else old(facultades))
      ensures searchTerm == old(searchTerm) && isOpen == old(isOpen) && kind == old(kind) && data == old(data)
      ensures old(Valid()) ==> Valid()
    {
      if confirmed {
        if Valid() {
          RemoveKeepsUnique(facultades, Id, id);
        }
        facultades := RemoveById(facultades, Id, id);
      }
    }

    /** `toggleStatus`: flips `activo` on the rows with that id; twice restores the list. */
    method ToggleStatus(id: string)
      modifies this
      ensures facultades == UpdateById(old(facultades), Id, id, Flip)
      ensures UpdateById(facultades, Id, id, Flip) == old(facultades)
      ensures searchTerm == old(searchTerm) && isOpen == old(isOpen) && kind == old(kind) && data == old(data)
      ensures old(Valid()) ==> Valid()
    {
      FlipTwice(facultades, id);
      facultades := UpdateById(facultades, Id, id, Flip);
    }
  }
}
