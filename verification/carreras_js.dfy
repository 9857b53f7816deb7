/**
 * `useCarreras` (the in-memory `.js` hook): careers searched by name or by
 * their faculty's name, saved, deleted and toggled in place. The hook
 * computes the filtered list but hands out the full one.
 */
module CarrerasJs {
  import opened Common
  import opened Catalog
  import Lists

  datatype Carrera = Carrera(id_carrera: string, nombre: string, id_facultad: string, duracion: Field, activo: bool)

  datatype Facultad = Facultad(id_facultad: string, nombre: string)

  function Id(c: Carrera): string { c.id_carrera }
  function Flip(c: Carrera): Carrera { c.(activo := !c.activo) }

  /** Flipping the rows with one id keeps the ids, and flipping them again restores the list. */
  lemma FlipTwice(s: seq<Carrera>, id: string)
    ensures UpdateById(UpdateById(s, Id, id, Flip), Id, id, Flip) == s
    ensures UniqueIds(s, Id) ==> UniqueIds(UpdateById(s, Id, id, Flip), Id)
  {
    UpdateTwiceRestores(s, Id, id, Flip);
  }

  /** `facultades.find(f => f.id_facultad === id)?.nombre`. */
  function FacultyName(facultades: seq<Facultad>, id: string): (r: Option<string>)
    ensures r.None? <==> forall i :: 0 <= i < |facultades| ==> facultades[i].id_facultad != id
    ensures r.Some? ==> exists i :: 0 <= i < |facultades| && facultades[i].id_facultad == id && facultades[i].nombre == r.value
  {
    match Lists.Find(facultades, (f: Facultad) => f.id_facultad == id)
    case None => None
    case Some(f) => Some(f.nombre)
  }

  predicate Matches(facultades: seq<Facultad>, term: string, c: Carrera) {
    MatchesSearch(term, [Some(c.nombre), FacultyName(facultades, c.id_facultad)])
  }

  /** `filteredCarreras`: all careers for an empty search, else those matching it. */
  function FilteredCarreras(carreras: seq<Carrera>, facultades: seq<Facultad>, term: string): (r: seq<Carrera>)
    ensures term == "" ==> r == carreras
    ensures forall i :: 0 <= i < |r| ==> r[i] in carreras && Matches(facultades, term, r[i])
    ensures forall i :: 0 <= i < |carreras| && Matches(facultades, term, carreras[i]) ==> carreras[i] in r
  {
    if term == "" then carreras
    else
      var keep := (c: Carrera) => Matches(facultades, term, c);
      Lists.FilterMembers(carreras, keep);
      Lists.Filter(carreras, keep)
  }

  /** A career is found by the lower-case name of its faculty. */
  lemma FoundByFacultyName(facultades: seq<Facultad>, c: Carrera, k: nat)
    requires k < |facultades| && facultades[k].id_facultad == c.id_facultad
    requires forall i :: 0 <= i < k ==> facultades[i].id_facultad != c.id_facultad
    ensures Matches(facultades, Lower(facultades[k].nombre), c)
  {
    var p := (f: Facultad) => f.id_facultad == c.id_facultad;
    assert p(facultades[k]);
    assert FacultyName(facultades, c.id_facultad) == Some(facultades[k].nombre);
    FieldMatchesItself(facultades[k].nombre);
    var fields := [Some(c.nombre), FacultyName(facultades, c.id_facultad)];
    assert FieldMatches(Lower(facultades[k].nombre), fields[1]);
  }

  const MissingDataMessage: string := "Faltan datos obligatorios"

  /** The required-field check of `handleSaveCarrera`. */
  function SaveCheck(f: Carrera): (r: Option<string>)
    ensures r.None? <==> f.nombre != "" && f.id_facultad != ""
    ensures r.Some? ==> r.value == MissingDataMessage
  {
    if f.nombre == "" || f.id_facultad == "" then Some(MissingDataMessage) else None
  }

  const AddForm: Carrera := Carrera("", "", "", Int(5), true)

  class CarreraStore {
    var carreras: seq<Carrera>
    var facultades: seq<Facultad>
    var searchTerm: string
    var isOpen: bool
    var kind: ModalKind
    var data: Option<Carrera>

    /** The list the hook hands out: every career, whatever the search. */
    function Returned(): seq<Carrera>
      reads this
    {
      carreras
    }

    /** The list the hook computes from the search and evidently meant to hand out. */
    function Visible(): seq<Carrera>
      reads this
    {
      FilteredCarreras(carreras, facultades, searchTerm)
    }

    predicate Valid()
      reads this
    {
      UniqueIds(carreras, Id)
    }

    constructor (initial: seq<Carrera>, catalogue: seq<Facultad>)
      ensures carreras == initial && facultades == catalogue && searchTerm == ""
      ensures !isOpen && kind == AddMode && data.None?
    {
      carreras, facultades := initial, catalogue;
      searchTerm := "";
      isOpen, kind, data := false, AddMode, None;
    }

    /** Typing a search leaves the handed-out list as it was; only `Visible` drops non-matching careers. */
    method SetSearchTerm(term: string)
      modifies this
      ensures searchTerm == term && carreras == old(carreras) && facultades == old(facultades)
      ensures isOpen == old(isOpen) && kind == old(kind) && data == old(data)
      ensures Returned() == old(Returned())
      ensures forall i :: 0 <= i < |carreras| && !Matches(facultades, term, carreras[i]) ==>
                carreras[i] in Returned() && carreras[i] !in Visible()
    {
      searchTerm := term;
    }

    method OpenAddModal()
      modifies this
      ensures isOpen && kind == AddMode && data == Some(AddForm)
      ensures carreras == old(carreras) && facultades == old(facultades) && searchTerm == old(searchTerm)
    {
      isOpen, kind, data := true, AddMode, Some(AddForm);
    }

    method OpenEditModal(item: Carrera)
      modifies this
      ensures isOpen && kind == EditMode && data == Some(item)
      ensures carreras == old(carreras) && facultades == old(facultades) && searchTerm == old(searchTerm)
    {
      isOpen, kind, data := true, EditMode, Some(item);
    }

    method CloseModal()
      modifies this
      ensures !isOpen && kind == old(kind) && data == old(data)
      ensures carreras == old(carreras) && facultades == old(facultades) && searchTerm == old(searchTerm)
    {
      isOpen := false;
    }

    /**
     * `handleSaveCarrera`: missing data is alerted and changes nothing; add
     * appends the form with a fresh id, edit replaces the row with the
     * form's id; then the modal closes.
     */
    method HandleSaveCarrera(formData: Carrera, freshId: string) returns (alert: Option<string>)
      modifies this
      ensures alert == SaveCheck(formData)
      ensures alert.Some? ==> carreras == old(carreras) && isOpen == old(isOpen)
      ensures alert.None? && old(kind) == AddMode ==>
                carreras == old(carreras) + [formData.(id_carrera := freshId, activo := true)]
      ensures alert.None? && old(kind) != AddMode ==>
                carreras == ReplaceById(old(carreras), Id, formData.id_carrera, formData)
      ensures alert.None? ==> !isOpen
      ensures kind == old(kind) && data == old(data) && facultades == old(facultades) && searchTerm == old(searchTerm)
      ensures old(Valid()) && !HasId(old(carreras), Id, freshId) ==> Valid()
    {
      alert := SaveCheck(formData);
      if alert.Some? {
        return;
      }
      if kind == AddMode {
        var added := formData.(id_carrera := freshId, activo := true);
        if Valid() && !HasId(carreras, Id, freshId) {
          AppendFreshKeepsUnique(carreras, Id, added);
        }
        carreras := carreras + [added];
      } else {
        ReplaceKeepsIds(carreras, Id, formData);
        carreras := ReplaceById(carreras, Id, formData.id_carrera, formData);
      }
      CloseModal();
    }

    /** `deleteCarrera`: removes that id, only when confirmed. */
    method DeleteCarrera(id: string, confirmed: bool)
      modifies this
      ensures carreras == (if confirmed then RemoveById(old(carreras), Id, id) else old(carreras))
      ensures facultades == old(facultades) && searchTerm == old(searchTerm)
      ensures isOpen == old(isOpen) && kind == old(kind) && data == old(data)
      ensures old(Valid()) ==> Valid()
    {
      if confirmed {
        if Valid() {
          RemoveKeepsUnique(carreras, Id, id);
        }
        carreras := RemoveById(carreras, Id, id);
      }
    }

    /** `toggleStatus`: flips `activo` on the rows with that id; twice restores the list. */
    method ToggleStatus(id: string)
      modifies this
      ensures carreras == UpdateById(old(carreras), Id, id, Flip)
      ensures UpdateById(carreras, Id, id, Flip) == old(carreras)
      ensures facultades == old(facultades) && searchTerm == old(searchTerm)
      ensures isOpen == old(isOpen) && kind == old(kind) && data == old(data)
      ensures old(Valid()) ==> Valid()
    {
      FlipTwice(carreras, id);
      carreras := UpdateById(carreras, Id, id, Flip);
    }
  }
}
