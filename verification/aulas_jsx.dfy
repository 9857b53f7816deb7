/**
 * `useAulas` (the `.jsx` hook): rooms with numeric ids, building and
 * location, a type looked up in the type catalogue, and a list of
 * equipment ids shown by name in a details modal. New rooms take the
 * largest id plus one.
 */
module AulasJsx {
  import opened Common
  import opened Catalog
  import Lists

  /**
   * A room. `equipamiento_ids` may be absent in a form; a saved room always
   * has one. The add form has no id: it is written 0 here and never read.
   */
  datatype Aula = Aula(id_aula: int, nombre: string, edificio: string, ubicacion: string,
                       capacidad: Field, id_tipo_aula: Field, equipamiento_ids: Option<seq<Field>>, activo: bool)

  /** A room type; its id is whatever key the catalogue entry carries under `id_tipo_aula`. */
  datatype TipoAula = TipoAula(id_tipo_aula: Field, nombre: string)

  datatype Equipo = Equipo(id_equipamiento: int, nombre: string)

  /** The equipment details modal. */
  datatype EquipModal = EquipModal(isOpen: bool, aulaNombre: string, listaEquipos: seq<string>)

  function Id(a: Aula): int { a.id_aula }
  function Flip(a: Aula): Aula { a.(activo := !a.activo) }

  // ---------------------------------------------------------------------
  // The catalogues
  // ---------------------------------------------------------------------

  /**
   * The type catalogue as written: its fourth entry names its id `id_tipo`,
   * so it has no `id_tipo_aula` at all.
   */
  const MockTipos: seq<TipoAula> := [
    TipoAula(Int(1), "Aula Te\U{00F3}rica Com\U{00FA}n"),
    TipoAula(Int(2), "Laboratorio de C\U{00F3}mputo"),
    TipoAula(Int(3), "Laboratorio de Ciencias"),
    TipoAula(Undef, "Taller de Arquitectura")
  ]

  /** The type catalogue with the fourth entry's id under the key every lookup reads. */
  const Tipos: seq<TipoAula> := MockTipos[3 := TipoAula(Int(4), "Taller de Arquitectura")]

  const MockEquipos: seq<Equipo> := [
    Equipo(1, "Proyector Multimedia"),
    Equipo(2, "Aire Acondicionado"),
    Equipo(3, "Pizarra Inteligente"),
    Equipo(4, "Computadora Instructor"),
    Equipo(5, "Escritorio Docente")
  ]

  /** `tipos.find(t => t.id_tipo_aula === key)?.nombre`. */
  function FindType(tipos: seq<TipoAula>, key: Field): (r: Option<string>)
    ensures r.None? <==> forall i :: 0 <= i < |tipos| ==> !StrictEq(tipos[i].id_tipo_aula, key)
    ensures r.Some? ==> exists i :: 0 <= i < |tipos| && tipos[i].nombre == r.value && StrictEq(tipos[i].id_tipo_aula, key)
  {
    match Lists.Find(tipos, (t: TipoAula) => StrictEq(t.id_tipo_aula, key))
    case None => None
    case Some(t) => Some(t.nombre)
  }

  /** The type of a room: the lookup keyed by `parseInt(a.id_tipo_aula)`. */
  function TypeName(tipos: seq<TipoAula>, idTipo: Field): (r: Option<string>)
    ensures r.None? <==> forall i :: 0 <= i < |tipos| ==> !StrictEq(tipos[i].id_tipo_aula, ParseInt(idTipo))
    ensures r.Some? ==> exists i :: 0 <= i < |tipos| && tipos[i].nombre == r.value
                                  && StrictEq(tipos[i].id_tipo_aula, ParseInt(idTipo))
  {
    FindType(tipos, ParseInt(idTipo))
  }

  /** The type column: the type's name, or `---` when none is found. */
  function TypeLabel(tipos: seq<TipoAula>, idTipo: Field): (r: string)
    ensures TypeName(tipos, idTipo).Some? ==> r == TypeName(tipos, idTipo).value
    ensures TypeName(tipos, idTipo).None? ==> r == "---"
  {
    match TypeName(tipos, idTipo)
    case None => "---"
    case Some(n) => n
  }

  /** As written, no room, whatever its type id, is ever shown as a workshop. */
  lemma WorkshopNeverFound(idTipo: Field)
    ensures TypeName(MockTipos, idTipo) != Some("Taller de Arquitectura")
  {
    var p := ParseInt(idTipo);
    assert !StrictEq(MockTipos[3].id_tipo_aula, p);
    assert forall i :: 0 <= i < 3 ==> MockTipos[i].nombre != "Taller de Arquitectura";
  }

  /** With the id under its key, a room of type 4 is shown as a workshop. */
  lemma WorkshopFoundByItsId()
    ensures TypeName(Tipos, Int(4)) == Some("Taller de Arquitectura")
    ensures TypeName(Tipos, Str("4")) == Some("Taller de Arquitectura")
  {
    assert IsDigit('4') && DigitsValue("4") == 4;
    ParseIntOfDigits("4");
    TypeFourIsWorkshop();
  }

  lemma TypeFourIsWorkshop()
    ensures FindType(Tipos, Int(4)) == Some("Taller de Arquitectura")
  {
    var p := (t: TipoAula) => StrictEq(t.id_tipo_aula, Int(4));
    assert Tipos == [MockTipos[0], MockTipos[1], MockTipos[2], TipoAula(Int(4), "Taller de Arquitectura")];
    assert !p(Tipos[0]) && !p(Tipos[1]) && !p(Tipos[2]) && p(Tipos[3]);
    Lists.FindFirst(Tipos, p, 3);
  }

  // ---------------------------------------------------------------------
  // Equipment names
  // ---------------------------------------------------------------------

  /** The name `equipos.find(e => e.id_equipamiento === parseInt(id))` gives, if any. */
  function EquipmentName(equipos: seq<Equipo>, id: Field): (r: Option<string>)
    ensures r.None? <==> forall i :: 0 <= i < |equipos| ==> !StrictEq(Int(equipos[i].id_equipamiento), ParseInt(id))
    ensures r.Some? ==> exists i :: 0 <= i < |equipos| && equipos[i].nombre == r.value
                                  && StrictEq(Int(equipos[i].id_equipamiento), ParseInt(id))
  {
    match Lists.Find(equipos, (e: Equipo) => StrictEq(Int(e.id_equipamiento), ParseInt(id)))
    case None => None
    case Some(e) => Some(e.nombre)
  }

  /** `ids.map(id => name or null).filter(Boolean)`: unknown ids and empty names drop out. */
  function EquipmentNames(equipos: seq<Equipo>, ids: seq<Field>): (r: seq<string>)
    ensures |r| <= |ids|
    ensures forall k :: 0 <= k < |r| ==> r[k] != "" && exists i :: 0 <= i < |equipos| && equipos[i].nombre == r[k]
  {
    if ids == [] then []
    else
      var rest := EquipmentNames(equipos, ids[1..]);
      match EquipmentName(equipos, ids[0])
      case Some(n) => if n != "" then [n] + rest else rest
      case None => rest
  }

  /** When every id names some equipment with a non-empty name, the list keeps one name per id, in order. */
  lemma {:induction false} AllKnownKeepsOrder(equipos: seq<Equipo>, ids: seq<Field>)
    requires forall k :: 0 <= k < |ids| ==> EquipmentName(equipos, ids[k]).Some? && EquipmentName(equipos, ids[k]).value != ""
    ensures |EquipmentNames(equipos, ids)| == |ids|
    ensures forall k :: 0 <= k < |ids| ==> EquipmentNames(equipos, ids)[k] == EquipmentName(equipos, ids[k]).value
  {
    if ids != [] {
      var tail := ids[1..];
      forall k | 0 <= k < |tail|
        ensures EquipmentName(equipos, tail[k]).Some? && EquipmentName(equipos, tail[k]).value != ""
      {
        assert tail[k] == ids[k + 1];
      }
      AllKnownKeepsOrder(equipos, tail);
      var rest := EquipmentNames(equipos, tail);
      var first := EquipmentName(equipos, ids[0]).value;
      KnownHeadIsKept(equipos, ids);
      var name := (x: Field) => var o := EquipmentName(equipos, x); if o.Some? then o.value else "";
      ShiftedNames(first, rest, ids, name);
    }
  }

  /** A known, named first id puts its name in front of the rest. */
  lemma KnownHeadIsKept(equipos: seq<Equipo>, ids: seq<Field>)
    requires ids != [] && EquipmentName(equipos, ids[0]).Some? && EquipmentName(equipos, ids[0]).value != ""
    ensures EquipmentNames(equipos, ids) == [EquipmentName(equipos, ids[0]).value] + EquipmentNames(equipos, ids[1..])
  {
  }

  /** One name per id, shifted by the name of the first. */
  lemma ShiftedNames(first: string, rest: seq<string>, ids: seq<Field>, name: Field -> string)
    requires ids != [] && first == name(ids[0]) && |rest| == |ids| - 1
    requires forall k :: 0 <= k < |rest| ==> rest[k] == name(ids[1..][k])
    ensures |[first] + rest| == |ids|
    ensures forall k :: 0 <= k < |ids| ==> ([first] + rest)[k] == name(ids[k])
  {
    forall k | 0 <= k < |ids| ensures ([first] + rest)[k] == name(ids[k]) {
      if k > 0 {
        assert ids[1..][k - 1] == ids[k];
      }
    }
  }

  // ---------------------------------------------------------------------
  // Search, save and ids
  // ---------------------------------------------------------------------

  predicate Matches(tipos: seq<TipoAula>, term: string, a: Aula) {
    MatchesSearch(term, [Some(a.nombre), Some(a.edificio), Some(a.ubicacion), TypeName(tipos, a.id_tipo_aula)])
  }

  /** `filteredAulas`: all rooms for an empty search, else those matching it. */
  function FilteredAulas(aulas: seq<Aula>, tipos: seq<TipoAula>, term: string): (r: seq<Aula>)
    ensures term == "" ==> r == aulas
    ensures forall i :: 0 <= i < |r| ==> r[i] in aulas && Matches(tipos, term, r[i])
    ensures forall i :: 0 <= i < |aulas| && Matches(tipos, term, aulas[i]) ==> aulas[i] in r
  {
    if term == "" then aulas
    else
      var keep := (a: Aula) => Matches(tipos, term, a);
      Lists.FilterMembers(aulas, keep);
      Lists.Filter(aulas, keep)
  }

  const RequiredMessage: string := "Complete los campos obligatorios."

  /** The required-field check of `handleSaveAula`. */
  function SaveCheck(f: Aula): (r: Option<string>)
    ensures r.None? <==> f.nombre != "" && f.edificio != "" && Truthy(f.id_tipo_aula) && Truthy(f.capacidad) && f.ubicacion != ""
    ensures r.Some? ==> r.value == RequiredMessage
  {
    if f.nombre == "" || f.edificio == "" || !Truthy(f.id_tipo_aula) || !Truthy(f.capacidad) || f.ubicacion == ""
    then Some(RequiredMessage)
    else None
  }

  function ParseAll(ids: seq<Field>): (r: seq<Field>)
    ensures |r| == |ids| && forall k :: 0 <= k < |ids| ==> r[k] == ParseInt(ids[k])
  {
    if ids == [] then [] else [ParseInt(ids[0])] + ParseAll(ids[1..])
  }

  /** `dataToSave`: type and capacity through `parseInt`, equipment ids parsed one by one or `[]`. */
  function DataToSave(f: Aula): (d: Aula)
    ensures d.id_tipo_aula == ParseInt(f.id_tipo_aula) && d.capacidad == ParseInt(f.capacidad)
    ensures d.equipamiento_ids.Some?
    ensures f.equipamiento_ids.None? ==> d.equipamiento_ids.value == []
    ensures f.equipamiento_ids.Some? ==>
              (|d.equipamiento_ids.value| == |f.equipamiento_ids.value|
               && forall k :: 0 <= k < |f.equipamiento_ids.value| ==>
                    d.equipamiento_ids.value[k] == ParseInt(f.equipamiento_ids.value[k]))
    ensures d.(id_tipo_aula := f.id_tipo_aula, capacidad := f.capacidad, equipamiento_ids := f.equipamiento_ids) == f
  {
    f.(id_tipo_aula := ParseInt(f.id_tipo_aula), capacidad := ParseInt(f.capacidad),
       equipamiento_ids := Some(if f.equipamiento_ids.Some? then ParseAll(f.equipamiento_ids.value) else []))
  }

  /** `aulas.length > 0 ? Math.max(...ids) : 0`. */
  function MaxId(aulas: seq<Aula>): (m: int)
    ensures aulas == [] ==> m == 0
    ensures forall i :: 0 <= i < |aulas| ==> aulas[i].id_aula <= m
    ensures aulas != [] ==> exists i :: 0 <= i < |aulas| && aulas[i].id_aula == m
  {
    if aulas == [] then 0
    else if |aulas| == 1 then aulas[0].id_aula
    else
      var m := MaxId(aulas[1..]);
      assert forall i :: 1 <= i < |aulas| ==> aulas[i] == aulas[1..][i - 1];
      if aulas[0].id_aula >= m then aulas[0].id_aula else m
  }

  /** The id an add hands out is above every id in use, so it is new. */
  lemma NextIdIsFresh(aulas: seq<Aula>)
    ensures !HasId(aulas, Id, MaxId(aulas) + 1)
  {
  }

  /** Flipping the rows with one id keeps the ids, and flipping them again restores the list. */
  lemma FlipTwice(s: seq<Aula>, id: int)
    ensures UpdateById(UpdateById(s, Id, id, Flip), Id, id, Flip) == s
    ensures UniqueIds(s, Id) ==> UniqueIds(UpdateById(s, Id, id, Flip), Id)
  {
    UpdateTwiceRestores(s, Id, id, Flip);
  }

  /** A row added with the next id keeps the ids unique. */
  lemma AddNextKeepsUnique(s: seq<Aula>, added: Aula)
    requires added.id_aula == MaxId(s) + 1
    ensures UniqueIds(s, Id) ==> UniqueIds(s + [added], Id)
  {
    NextIdIsFresh(s);
    if UniqueIds(s, Id) {
      AppendFreshKeepsUnique(s, Id, added);
    }
  }

  /** The form `openAddModal` starts from. */
  const AddForm: Aula := Aula(0, "", "", "Campus", Int(30), Str(""), Some([]), true)

  /** The untouched add form is refused: it has no name, building or type. */
  lemma AddFormIsIncomplete()
    ensures SaveCheck(AddForm) == Some(RequiredMessage)
  {
  }

  /** `openEquipamientoModal`: the room's name and the names of its known equipment. */
  function EquipmentModal(equipos: seq<Equipo>, row: Aula): (m: Option<EquipModal>)
    ensures row.equipamiento_ids.None? <==> m.None?
    ensures m.Some? ==> m.value.isOpen && m.value.aulaNombre == row.nombre
                        && m.value.listaEquipos == EquipmentNames(equipos, row.equipamiento_ids.value)
  {
    if row.equipamiento_ids.None? then None
    else Some(EquipModal(true, row.nombre, EquipmentNames(equipos, row.equipamiento_ids.value)))
  }

  const ClosedEquipModal: EquipModal := EquipModal(false, "", [])

  class AulaCatalog {
    var aulas: seq<Aula>
    var tipos: seq<TipoAula>
    var equipos: seq<Equipo>
    var searchTerm: string
    var isOpen: bool
    var kind: ModalKind
    var data: Option<Aula>
    var equipModal: EquipModal

    function Visible(): seq<Aula>
      reads this
    {
      FilteredAulas(aulas, tipos, searchTerm)
    }

    predicate Valid()
      reads this
    {
      UniqueIds(aulas, Id)
    }

    /** The hook's first state, over the type catalogue as written. */
    constructor (initial: seq<Aula>)
      ensures aulas == initial && tipos == MockTipos && equipos == MockEquipos && searchTerm == ""
      ensures !isOpen && kind == AddMode && data.None? && equipModal == ClosedEquipModal
    {
      aulas, tipos, equipos := initial, MockTipos, MockEquipos;
      searchTerm := "";
      isOpen, kind, data := false, AddMode, None;
      equipModal := ClosedEquipModal;
    }

    /** `toggleStatus`: flips `activo` on the rows with that id. */
    method ToggleStatus(id: int)
      modifies this
      ensures aulas == UpdateById(old(aulas), Id, id, Flip)
      ensures UpdateById(aulas, Id, id, Flip) == old(aulas)
      ensures tipos == old(tipos) && equipos == old(equipos) && searchTerm == old(searchTerm)
      ensures isOpen == old(isOpen) && kind == old(kind) && data == old(data) && equipModal == old(equipModal)
      ensures old(Valid()) ==> Valid()
    {
      var flipped := UpdateById(aulas, Id, id, Flip);
      FlipTwice(aulas, id);
      aulas := flipped;
    }

    /** `openEquipamientoModal`; a row without an id list makes the source throw, and nothing changes. */
    method OpenEquipamientoModal(row: Aula)
      modifies this
      ensures EquipmentModal(equipos, row).Some? ==> equipModal == EquipmentModal(equipos, row).value
      ensures EquipmentModal(equipos, row).None? ==> equipModal == old(equipModal)
      ensures aulas == old(aulas) && tipos == old(tipos) && equipos == old(equipos) && searchTerm == old(searchTerm)
      ensures isOpen == old(isOpen) && kind == old(kind) && data == old(data)
    {
      var m := EquipmentModal(equipos, row);
      if m.Some? {
        equipModal := m.value;
      }
    }

    method CloseEquipModal()
      modifies this
      ensures equipModal == ClosedEquipModal
      ensures aulas == old(aulas) && tipos == old(tipos) && equipos == old(equipos) && searchTerm == old(searchTerm)
      ensures isOpen == old(isOpen) && kind == old(kind) && data == old(data)
    {
      equipModal := ClosedEquipModal;
    }

    method OpenAddModal()
      modifies this
      ensures isOpen && kind == AddMode && data == Some(AddForm)
      ensures aulas == old(aulas) && tipos == old(tipos) && equipos == old(equipos) && searchTerm == old(searchTerm)
      ensures equipModal == old(equipModal)
    {
      isOpen, kind, data := true, AddMode, Some(AddForm);
    }

    method OpenEditModal(item: Aula)
      modifies this
      ensures isOpen && kind == EditMode && data == Some(item)
      ensures aulas == old(aulas) && tipos == old(tipos) && equipos == old(equipos) && searchTerm == old(searchTerm)
      ensures equipModal == old(equipModal)
    {
      isOpen, kind, data := true, EditMode, Some(item);
    }

    method CloseModal()
      modifies this
      ensures !isOpen && kind == old(kind) && data == old(data)
      ensures aulas == old(aulas) && tipos == old(tipos) && equipos == old(equipos) && searchTerm == old(searchTerm)
      ensures equipModal == old(equipModal)
    {
      isOpen := false;
    }

    /**
     * `handleSaveAula`: a missing field is alerted and changes nothing; add
     * appends the normalised form with the next id, edit replaces the row
     * with the form's id; then the modal closes. Ids stay unique either way.
     */
    method HandleSaveAula(formData: Aula) returns (alert: Option<string>)
      modifies this
      ensures alert == SaveCheck(formData)
      ensures alert.Some? ==> aulas == old(aulas) && isOpen == old(isOpen)
      ensures alert.None? && old(kind) == AddMode ==>
                aulas == old(aulas) + [DataToSave(formData).(id_aula := MaxId(old(aulas)) + 1, activo := true)]
      ensures alert.None? && old(kind) != AddMode ==>
                aulas == ReplaceById(old(aulas), Id, formData.id_aula, DataToSave(formData))
      ensures alert.None? ==> !isOpen
      ensures kind == old(kind) && data == old(data) && tipos == old(tipos) && equipos == old(equipos)
      ensures searchTerm == old(searchTerm) && equipModal == old(equipModal)
      ensures old(Valid()) ==> Valid()
    {
      alert := SaveCheck(formData);
      if alert.Some? {
        return;
      }
      var dataToSave := DataToSave(formData);
      if kind == AddMode {
        var added := dataToSave.(id_aula := MaxId(aulas) + 1, activo := true);
        AddNextKeepsUnique(aulas, added);
        aulas := aulas + [added];
      } else {
        ReplaceKeepsIds(aulas, Id, dataToSave);
        aulas := ReplaceById(aulas, Id, dataToSave.id_aula, dataToSave);
      }
      CloseModal();
    }
  }
}
