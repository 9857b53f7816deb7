/**
 * `useAulas` (the `.js` hook): rooms kept in memory, searched by name,
 * type name, equipment and location, validated before a save, and
 * deleted, toggled, added or edited in place.
 */
module AulasJs {
  import opened Common
  import opened Catalog
  import Lists

  /** A room; capacity and type id are whatever the form held (number or text). */
  datatype Aula = Aula(id_aula: string, nombre: string, capacidad: Field, id_tipo_aula: Field,
                       equipamiento: string, ubicacion: string, activo: bool)

  /** A room type of the catalogue, with a numeric id. */
  datatype TipoAula = TipoAula(id_tipo: int, nombre: string)

  function Id(a: Aula): string { a.id_aula }
  function Flip(a: Aula): Aula { a.(activo := !a.activo) }

  /** Flipping the rows with one id keeps the ids, and flipping them again restores the list. */
  lemma FlipTwice(s: seq<Aula>, id: string)
    ensures UpdateById(UpdateById(s, Id, id, Flip), Id, id, Flip) == s
    ensures UniqueIds(s, Id) ==> UniqueIds(UpdateById(s, Id, id, Flip), Id)
  {
    UpdateTwiceRestores(s, Id, id, Flip);
  }

  /** `tiposAula.find(t => t.id_tipo === parseInt(aula.id_tipo_aula))?.nombre`. */
  function TypeName(tipos: seq<TipoAula>, idTipo: Field): (r: Option<string>)
    ensures r.None? <==> forall i :: 0 <= i < |tipos| ==> !StrictEq(Int(tipos[i].id_tipo), ParseInt(idTipo))
    ensures r.Some? ==> exists i :: 0 <= i < |tipos| && tipos[i].nombre == r.value
                                  && StrictEq(Int(tipos[i].id_tipo), ParseInt(idTipo))
  {
    match Lists.Find(tipos, (t: TipoAula) => StrictEq(Int(t.id_tipo), ParseInt(idTipo)))
    case None => None
    case Some(t) => Some(t.nombre)
  }

  /** A type chosen in the form arrives as the text of its id, and still finds its type. */
  lemma SelectedTextFindsType(tipos: seq<TipoAula>, k: nat)
    requires k < |tipos| && tipos[k].id_tipo >= 0
    requires forall i :: 0 <= i < k ==> tipos[i].id_tipo != tipos[k].id_tipo
    ensures TypeName(tipos, Str(NatText(tipos[k].id_tipo))) == Some(tipos[k].nombre)
  {
    var n: nat := tipos[k].id_tipo;
    ParseIntOfDigits(NatText(n));
    var p := (t: TipoAula) => StrictEq(Int(t.id_tipo), ParseInt(Str(NatText(n))));
    assert p(tipos[k]);
    assert forall i :: 0 <= i < k ==> !p(tipos[i]);
    Lists.FindFirst(tipos, p, k);
  }

  predicate Matches(tipos: seq<TipoAula>, term: string, a: Aula) {
    MatchesSearch(term, [Some(a.nombre), TypeName(tipos, a.id_tipo_aula), Some(a.equipamiento), Some(a.ubicacion)])
  }

  /** `filteredAulas`: all rooms for an empty search, else those matching it. */
  function FilteredAulas(aulas: seq<Aula>, tipos: seq<TipoAula>, term: string): (r: seq<Aula>)
    ensures term == "" ==> r == aulas
    ensures forall i :: 0 <= i < |r| ==> r[i] in aulas && Matches(tipos, term, r[i])
    ensures forall i :: 0 <= i < |aulas| && Matches(tipos, term, aulas[i]) ==> aulas[i] in r
  {
    if term == "" then aulas
    else
      var keep := (a: Aula) => Matches(tipos, term, a);
      Lists.FilterMembers(aulas, keep);
      Lists.Filter(aulas, keep)
  }

  const NameRequiredMessage: string := "El nombre/n\U{00FA}mero del aula es obligatorio."
  const CapacityMessage: string := "La capacidad debe ser mayor a 0."
  const TypeRequiredMessage: string := "Debes seleccionar un tipo de aula."

  /** `validateAula`: the first failing check, in the source's order. */
  function ValidateAula(f: Aula): (r: Option<string>)
    ensures Trim(f.nombre) == "" ==> r == Some(NameRequiredMessage)
    ensures Trim(f.nombre) != "" && NotPositive(f.capacidad) ==> r == Some(CapacityMessage)
    ensures Trim(f.nombre) != "" && !NotPositive(f.capacidad) && !Truthy(f.id_tipo_aula) ==> r == Some(TypeRequiredMessage)
    ensures r.None? <==> Trim(f.nombre) != "" && !NotPositive(f.capacidad) && Truthy(f.id_tipo_aula)
  {
    if f.nombre == "" || Trim(f.nombre) == "" then Some(NameRequiredMessage)
    else if NotPositive(f.capacidad) then Some(CapacityMessage)
    else if !Truthy(f.id_tipo_aula) then Some(TypeRequiredMessage)
    else None
  }

  /** A blank capacity counts as 0 and is refused. */
  lemma BlankCapacityRefused(f: Aula)
    requires Trim(f.nombre) != "" && f.capacidad == Str("")
    ensures ValidateAula(f) == Some(CapacityMessage)
  {
    assert Trim("") == "";
  }

  /** A capacity typed with a decimal point, such as "-0.5" or "0.0", is refused exactly when it is not above 0. */
  lemma DecimalCapacityGuard(f: Aula, negative: bool, whole: string, fraction: string)
    requires Trim(f.nombre) != ""
    requires |whole| + |fraction| > 0
    requires forall i :: 0 <= i < |whole| ==> IsDigit(whole[i])
    requires forall i :: 0 <= i < |fraction| ==> IsDigit(fraction[i])
    requires f.capacidad == Str((if negative then "-" else "") + (whole + "." + fraction))
    ensures ValidateAula(f) == Some(CapacityMessage) <==> negative || DigitsValue(whole + fraction) == 0
  {
    DecimalNotPositive(negative, whole, fraction);
  }

  /** `dataToSave`: the type id becomes `parseInt` of what the form held. */
  function DataToSave(f: Aula): (d: Aula)
    ensures d.id_tipo_aula == ParseInt(f.id_tipo_aula) && (d.id_tipo_aula.Int? || d.id_tipo_aula.NaN?)
    ensures d.(id_tipo_aula := f.id_tipo_aula) == f
  {
    f.(id_tipo_aula := ParseInt(f.id_tipo_aula))
  }

  /** A saved room whose type was chosen by its id's text points at that type's number. */
  lemma SavedTypeIsNumeric(f: Aula, n: nat)
    requires f.id_tipo_aula == Str(NatText(n))
    ensures DataToSave(f).id_tipo_aula == Int(n)
  {
    ParseIntAgreesWithNumber(NatText(n));
  }

  /** The form `openAddModal` starts from; it has no id yet. */
  const AddForm: Aula := Aula("", "", Int(30), Str(""), "", "", true)

  /** The untouched add form is refused for its missing name. */
  lemma AddFormNeedsName()
    ensures ValidateAula(AddForm) == Some(NameRequiredMessage)
  {
    assert Trim("") == "";
  }

  class AulaStore {
    var aulas: seq<Aula>
    var tiposAula: seq<TipoAula>
    var searchTerm: string
    var isOpen: bool
    var kind: ModalKind
    var data: Option<Aula>

    /** The list the hook hands out. */
    function Visible(): seq<Aula>
      reads this
    {
      FilteredAulas(aulas, tiposAula, searchTerm)
    }

    predicate Valid()
      reads this
    {
      UniqueIds(aulas, Id)
    }

    constructor (initial: seq<Aula>, tipos: seq<TipoAula>)
      ensures aulas == initial && tiposAula == tipos && searchTerm == ""
      ensures !isOpen && kind == AddMode && data.None?
      ensures Visible() == initial
    {
      aulas, tiposAula := initial, tipos;
      searchTerm := "";
      isOpen, kind, data := false, AddMode, None;
    }

    method SetSearchTerm(term: string)
      modifies this
      ensures searchTerm == term && aulas == old(aulas) && tiposAula == old(tiposAula)
      ensures isOpen == old(isOpen) && kind == old(kind) && data == old(data)
    {
      searchTerm := term;
    }

    method OpenAddModal()
      modifies this
      ensures isOpen && kind == AddMode && data == Some(AddForm)
      ensures aulas == old(aulas) && tiposAula == old(tiposAula) && searchTerm == old(searchTerm)
    {
      isOpen, kind, data := true, AddMode, Some(AddForm);
    }

    method OpenEditModal(a: Aula)
      modifies this
      ensures isOpen && kind == EditMode && data == Some(a)
      ensures aulas == old(aulas) && tiposAula == old(tiposAula) && searchTerm == old(searchTerm)
    {
      isOpen, kind, data := true, EditMode, Some(a);
    }

    method CloseModal()
      modifies this
      ensures !isOpen && kind == old(kind) && data == old(data)
      ensures aulas == old(aulas) && tiposAula == old(tiposAula) && searchTerm == old(searchTerm)
    {
      isOpen := false;
    }

    /**
     * `handleSaveAula`: a validation error is alerted and changes nothing;
     * otherwise the normalised form is appended with a fresh id (add) or
     * replaces the row with its id (edit), and the modal closes.
     */
    method HandleSaveAula(formData: Aula, freshId: string) returns (alert: Option<string>)
      modifies this
      ensures alert == ValidateAula(formData)
      ensures alert.Some? ==> aulas == old(aulas) && isOpen == old(isOpen)
      ensures alert.None? && old(kind) == AddMode ==>
                aulas == old(aulas) + [DataToSave(formData).(id_aula := freshId, activo := true)]
      ensures alert.None? && old(kind) != AddMode ==>
                aulas == ReplaceById(old(aulas), Id, formData.id_aula, DataToSave(formData))
      ensures alert.None? ==> !isOpen
      ensures kind == old(kind) && data == old(data) && searchTerm == old(searchTerm) && tiposAula == old(tiposAula)
      ensures old(Valid()) && !HasId(old(aulas), Id, freshId) ==> Valid()
    {
      alert := ValidateAula(formData);
      if alert.Some? {
        return;
      }
      var dataToSave := DataToSave(formData);
      if kind == AddMode {
        var added := dataToSave.(id_aula := freshId, activo := true);
        if Valid() && !HasId(aulas, Id, freshId) {
          AppendFreshKeepsUnique(aulas, Id, added);
        }
        aulas := aulas + [added];
      } else {
        ReplaceKeepsIds(aulas, Id, dataToSave);
        aulas := ReplaceById(aulas, Id, dataToSave.id_aula, dataToSave);
      }
      CloseModal();
    }

    /** `deleteAula`: removes that id, only when confirmed. */
    method DeleteAula(id: string, confirmed: bool)
      modifies this
      ensures aulas == (if confirmed then RemoveById(old(aulas), Id, id) else old(aulas))
      ensures searchTerm == old(searchTerm) && tiposAula == old(tiposAula)
      ensures isOpen == old(isOpen) && kind == old(kind) && data == old(data)
      ensures old(Valid()) ==> Valid()
    {
      if confirmed {
        if Valid() {
          RemoveKeepsUnique(aulas, Id, id);
        }
        aulas := RemoveById(aulas, Id, id);
      }
    }

    /** `toggleStatus`: flips `activo` on the rows with that id; twice restores the list. */
    method ToggleStatus(id: string)
      modifies this
      ensures aulas == UpdateById(old(aulas), Id, id, Flip)
      ensures UpdateById(aulas, Id, id, Flip) == old(aulas)
      ensures searchTerm == old(searchTerm) && tiposAula == old(tiposAula)
      ensures isOpen == old(isOpen) && kind == old(kind) && data == old(data)
      ensures old(Valid()) ==> Valid()
    {
      FlipTwice(aulas, id);
      aulas := UpdateById(aulas, Id, id, Flip);
    }
  }
}
