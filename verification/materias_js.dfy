/**
 * `useMaterias` (the in-memory `.js` hook): subjects searched by name or
 * code, saved when named, coded and worth more than zero credits, deleted
 * and toggled in place. The hook computes the filtered list but hands out
 * the full one.
 */
module MateriasJs {
  import opened Common
  import opened Catalog
  import Lists

  /** A subject; `uv` (credit units) is whatever the form held. */
  datatype Materia = Materia(id_materia: string, codigo: string, nombre: string, uv: Field, tipo: string, activo: bool)

  function Id(m: Materia): string { m.id_materia }
  function Flip(m: Materia): Materia { m.(activo := !m.activo) }

  /** Flipping the rows with one id keeps the ids, and flipping them again restores the list. */
  lemma FlipTwice(s: seq<Materia>, id: string)
    ensures UpdateById(UpdateById(s, Id, id, Flip), Id, id, Flip) == s
    ensures UniqueIds(s, Id) ==> UniqueIds(UpdateById(s, Id, id, Flip), Id)
  {
    UpdateTwiceRestores(s, Id, id, Flip);
  }

  predicate Matches(term: string, m: Materia) {
    MatchesSearch(term, [Some(m.nombre), Some(m.codigo)])
  }

  /** `filteredMaterias`: all subjects for an empty search, else those matching it. */
  function FilteredMaterias(materias: seq<Materia>, term: string): (r: seq<Materia>)
    ensures term == "" ==> r == materias
    ensures forall i :: 0 <= i < |r| ==> r[i] in materias && Matches(term, r[i])
    ensures forall i :: 0 <= i < |materias| && Matches(term, materias[i]) ==> materias[i] in r
  {
    if term == "" then materias
    else
      var keep := (m: Materia) => Matches(term, m);
      Lists.FilterMembers(materias, keep);
      Lists.Filter(materias, keep)
  }

  const InvalidMessage: string := "Datos inv\U{00E1}lidos"

  /** The check of `handleSaveMateria`: name and code present, `uv <= 0` false. */
  function SaveCheck(f: Materia): (r: Option<string>)
    ensures r.None? <==> f.nombre != "" && f.codigo != "" && !NotPositive(f.uv)
    ensures r.Some? ==> r.value == InvalidMessage
  {
    if f.nombre == "" || f.codigo == "" || NotPositive(f.uv) then Some(InvalidMessage) else None
  }

  /** Credits that are not a number slip through the `uv <= 0` guard; blank credits do not. */
  lemma CreditGuardOnText(f: Materia)
    requires f.nombre != "" && f.codigo != ""
    ensures f.uv == Str("") ==> SaveCheck(f) == Some(InvalidMessage)
    ensures f.uv == Str("x") ==> SaveCheck(f).None?
  {
    assert Trim("") == "";
    if f.uv == Str("x") {
      assert !IsWs('x');
      assert Trim("x") == "x";
    }
  }

  /** Credits typed with a decimal point, such as "-0.5" or "0.0", are refused exactly when they are not above 0. */
  lemma DecimalCreditGuard(f: Materia, negative: bool, whole: string, fraction: string)
    requires f.nombre != "" && f.codigo != ""
    requires |whole| + |fraction| > 0
    requires forall i :: 0 <= i < |whole| ==> IsDigit(whole[i])
    requires forall i :: 0 <= i < |fraction| ==> IsDigit(fraction[i])
    requires f.uv == Str((if negative then "-" else "") + (whole + "." + fraction))
    ensures SaveCheck(f).Some? <==> negative || DigitsValue(whole + fraction) == 0
  {
    DecimalNotPositive(negative, whole, fraction);
  }

  const AddForm: Materia := Materia("", "", "", Int(4), "Te\U{00F3}rica", true)

  class MateriaStore {
    var materias: seq<Materia>
    var searchTerm: string
    var isOpen: bool
    var kind: ModalKind
    var data: Option<Materia>

    /** The list the hook hands out: every subject, whatever the search. */
    function Returned(): seq<Materia>
      reads this
    {
      materias
    }

    /** The list the hook computes from the search and evidently meant to hand out. */
    function Visible(): seq<Materia>
      reads this
    {
      FilteredMaterias(materias, searchTerm)
    }

    predicate Valid()
      reads this
    {
      UniqueIds(materias, Id)
    }

    constructor (initial: seq<Materia>)
      ensures materias == initial && searchTerm == "" && !isOpen && kind == AddMode && data.None?
    {
      materias := initial;
      searchTerm := "";
      isOpen, kind, data := false, AddMode, None;
    }

    /** Typing a search leaves the handed-out list as it was; only `Visible` drops non-matching subjects. */
    method SetSearchTerm(term: string)
      modifies this
      ensures searchTerm == term && materias == old(materias)
      ensures isOpen == old(isOpen) && kind == old(kind) && data == old(data)
      ensures Returned() == old(Returned())
      ensures forall i :: 0 <= i < |materias| && !Matches(term, materias[i]) ==>
                materias[i] in Returned() && materias[i] !in Visible()
    {
      searchTerm := term;
    }

    method OpenAddModal()
      modifies this
      ensures isOpen && kind == AddMode && data == Some(AddForm)
      ensures materias == old(materias) && searchTerm == old(searchTerm)
    {
      isOpen, kind, data := true, AddMode, Some(AddForm);
    }

    method OpenEditModal(item: Materia)
      modifies this
      ensures isOpen && kind == EditMode && data == Some(item)
      ensures materias == old(materias) && searchTerm == old(searchTerm)
    {
      isOpen, kind, data := true, EditMode, Some(item);
    }

    method CloseModal()
      modifies this
      ensures !isOpen && kind == old(kind) && data == old(data)
      ensures materias == old(materias) && searchTerm == old(searchTerm)
    {
      isOpen := false;
    }

    /**
     * `handleSaveMateria`: invalid data is alerted and changes nothing; add
     * appends the form with a fresh id, edit replaces the row with the
     * form's id; then the modal closes.
     */
    method HandleSaveMateria(formData: Materia, freshId: string) returns (alert: Option<string>)
      modifies this
      ensures alert == SaveCheck(formData)
      ensures alert.Some? ==> materias == old(materias) && isOpen == old(isOpen)
      ensures alert.None? && old(kind) == AddMode ==>
                materias == old(materias) + [formData.(id_materia := freshId, activo := true)]
      ensures alert.None? && old(kind) != AddMode ==>
                materias == ReplaceById(old(materias), Id, formData.id_materia, formData)
      ensures alert.None? ==> !isOpen
      ensures kind == old(kind) && data == old(data) && searchTerm == old(searchTerm)
      ensures old(Valid()) && !HasId(old(materias), Id, freshId) ==> Valid()
    {
      alert := SaveCheck(formData);
      if alert.Some? {
        return;
      }
      if kind == AddMode {
        var added := formData.(id_materia := freshId, activo := true);
        if Valid() && !HasId(materias, Id, freshId) {
          AppendFreshKeepsUnique(materias, Id, added);
        }
        materias := materias + [added];
      } else {
        ReplaceKeepsIds(materias, Id, formData);
        materias := ReplaceById(materias, Id, formData.id_materia, formData);
      }
      CloseModal();
    }

    /** `deleteMateria`: removes that id, only when confirmed. */
    method DeleteMateria(id: string, confirmed: bool)
      modifies this
      ensures materias == (if confirmed then RemoveById(old(materias), Id, id) else old(materias))
      ensures searchTerm == old(searchTerm) && isOpen == old(isOpen) && kind == old(kind) && data == old(data)
      ensures old(Valid()) ==> Valid()
    {
      if confirmed {
        if Valid() {
          RemoveKeepsUnique(materias, Id, id);
        }
        materias := RemoveById(materias, Id, id);
      }
    }

    /** `toggleStatus`: flips `activo` on the rows with that id; twice restores the list. */
    method ToggleStatus(id: string)
      modifies this
      ensures materias == UpdateById(old(materias), Id, id, Flip)
      ensures UpdateById(materias, Id, id, Flip) == old(materias)
      ensures searchTerm == old(searchTerm) && isOpen == old(isOpen) && kind == old(kind) && data == old(data)
      ensures old(Valid()) ==> Valid()
    {
      FlipTwice(materias, id);
      materias := UpdateById(materias, Id, id, Flip);
    }
  }
}
