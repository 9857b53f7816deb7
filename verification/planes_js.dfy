/**
 * `usePlanEstudio` (the in-memory `.js` hook): study plans with a career
 * id, searched by plan or career name, saved, deleted and toggled in place.
 * The hook computes the filtered list but hands out the full one.
 */
module PlanesJs {
  import opened Common
  import opened Catalog
  import Lists

  datatype Plan = Plan(id_plan: string, nombre: string, id_carrera: string, anio_vigencia: Field, activo: bool)

  datatype Carrera = Carrera(id_carrera: string, nombre: string)

  function Id(p: Plan): string { p.id_plan }
  function Flip(p: Plan): Plan { p.(activo := !p.activo) }

  /** Flipping the rows with one id keeps the ids, and flipping them again restores the list. */
  lemma FlipTwice(s: seq<Plan>, id: string)
    ensures UpdateById(UpdateById(s, Id, id, Flip), Id, id, Flip) == s
    ensures UniqueIds(s, Id) ==> UniqueIds(UpdateById(s, Id, id, Flip), Id)
  {
    UpdateTwiceRestores(s, Id, id, Flip);
  }

  /** `carreras.find(c => c.id_carrera === id)?.nombre`. */
  function CareerName(carreras: seq<Carrera>, id: string): (r: Option<string>)
    ensures r.None? <==> forall i :: 0 <= i < |carreras| ==> carreras[i].id_carrera != id
    ensures r.Some? ==> exists i :: 0 <= i < |carreras| && carreras[i].id_carrera == id && carreras[i].nombre == r.value
  {
    match Lists.Find(carreras, (c: Carrera) => c.id_carrera == id)
    case None => None
    case Some(c) => Some(c.nombre)
  }

  predicate Matches(carreras: seq<Carrera>, term: string, p: Plan) {
    MatchesSearch(term, [Some(p.nombre), CareerName(carreras, p.id_carrera)])
  }

  /** `filteredPlanes`: all plans for an empty search, else those matching it. */
  function FilteredPlanes(planes: seq<Plan>, carreras: seq<Carrera>, term: string): (r: seq<Plan>)
    ensures term == "" ==> r == planes
    ensures forall i :: 0 <= i < |r| ==> r[i] in planes && Matches(carreras, term, r[i])
    ensures forall i :: 0 <= i < |planes| && Matches(carreras, term, planes[i]) ==> planes[i] in r
  {
    if term == "" then planes
    else
      var keep := (p: Plan) => Matches(carreras, term, p);
      Lists.FilterMembers(planes, keep);
      Lists.Filter(planes, keep)
  }

  const MissingDataMessage: string := "Faltan datos"

  /** The required-field check of `handleSavePlan`. */
  function SaveCheck(f: Plan): (r: Option<string>)
    ensures r.None? <==> f.nombre != "" && f.id_carrera != ""
    ensures r.Some? ==> r.value == MissingDataMessage
  {
    if f.nombre == "" || f.id_carrera == "" then Some(MissingDataMessage) else None
  }

  /** The form `openAddModal` starts from: the current year, which the clock supplies. */
  function AddForm(currentYear: int): (f: Plan)
    ensures f.anio_vigencia == Int(currentYear) && f.activo && f.nombre == "" && f.id_carrera == ""
  {
    Plan("", "", "", Int(currentYear), true)
  }

  class PlanStore {
    var planes: seq<Plan>
    var carreras: seq<Carrera>
    var searchTerm: string
    var isOpen: bool
    var kind: ModalKind
    var data: Option<Plan>

    /** The list the hook hands out: every plan, whatever the search. */
    function Returned(): seq<Plan>
      reads this
    {
      planes
    }

    /** The list the hook computes from the search and evidently meant to hand out. */
    function Visible(): seq<Plan>
      reads this
    {
      FilteredPlanes(planes, carreras, searchTerm)
    }

    predicate Valid()
      reads this
    {
      UniqueIds(planes, Id)
    }

    constructor (initial: seq<Plan>, catalogue: seq<Carrera>)
      ensures planes == initial && carreras == catalogue && searchTerm == ""
      ensures !isOpen && kind == AddMode && data.None?
    {
      planes, carreras := initial, catalogue;
      searchTerm := "";
      isOpen, kind, data := false, AddMode, None;
    }

    /**
     * Typing a search changes the computed list but not the one handed out:
     * a plan that does not match is still returned, and only `Visible` drops it.
     */
    method SetSearchTerm(term: string)
      modifies this
      ensures searchTerm == term && planes == old(planes) && carreras == old(carreras)
      ensures isOpen == old(isOpen) && kind == old(kind) && data == old(data)
      ensures Returned() == old(Returned())
      ensures forall i :: 0 <= i < |planes| && !Matches(carreras, term, planes[i]) ==>
                planes[i] in Returned() && planes[i] !in Visible()
    {
      searchTerm := term;
    }

    method OpenAddModal(currentYear: int)
      modifies this
      ensures isOpen && kind == AddMode && data == Some(AddForm(currentYear))
      ensures planes == old(planes) && carreras == old(carreras) && searchTerm == old(searchTerm)
    {
      isOpen, kind, data := true, AddMode, Some(AddForm(currentYear));
    }

    method OpenEditModal(item: Plan)
      modifies this
      ensures isOpen && kind == EditMode && data == Some(item)
      ensures planes == old(planes) && carreras == old(carreras) && searchTerm == old(searchTerm)
    {
      isOpen, kind, data := true, EditMode, Some(item);
    }

    method CloseModal()
      modifies this
      ensures !isOpen && kind == old(kind) && data == old(data)
      ensures planes == old(planes) && carreras == old(carreras) && searchTerm == old(searchTerm)
    {
      isOpen := false;
    }

    /**
     * `handleSavePlan`: missing data is alerted and changes nothing; add
     * appends the form with a fresh id, edit replaces the row with the
     * form's id; then the modal closes.
     */
    method HandleSavePlan(formData: Plan, freshId: string) returns (alert: Option<string>)
      modifies this
      ensures alert == SaveCheck(formData)
      ensures alert.Some? ==> planes == old(planes) && isOpen == old(isOpen)
      ensures alert.None? && old(kind) == AddMode ==> planes == old(planes) + [formData.(id_plan := freshId, activo := true)]
      ensures alert.None? && old(kind) != AddMode ==> planes == ReplaceById(old(planes), Id, formData.id_plan, formData)
      ensures alert.None? ==> !isOpen
      ensures kind == old(kind) && data == old(data) && carreras == old(carreras) && searchTerm == old(searchTerm)
      ensures old(Valid()) && !HasId(old(planes), Id, freshId) ==> Valid()
    {
      alert := SaveCheck(formData);
      if alert.Some? {
        return;
      }
      if kind == AddMode {
        var added := formData.(id_plan := freshId, activo := true);
        if Valid() && !HasId(planes, Id, freshId) {
          AppendFreshKeepsUnique(planes, Id, added);
        }
        planes := planes + [added];
      } else {
        ReplaceKeepsIds(planes, Id, formData);
        planes := ReplaceById(planes, Id, formData.id_plan, formData);
      }
      CloseModal();
    }

    /** `deletePlan`: removes that id, only when confirmed. */
    method DeletePlan(id: string, confirmed: bool)
      modifies this
      ensures planes == (if confirmed then RemoveById(old(planes), Id, id) else old(planes))
      ensures carreras == old(carreras) && searchTerm == old(searchTerm)
      ensures isOpen == old(isOpen) && kind == old(kind) && data == old(data)
      ensures old(Valid()) ==> Valid()
    {
      if confirmed {
        if Valid() {
          RemoveKeepsUnique(planes, Id, id);
        }
        planes := RemoveById(planes, Id, id);
      }
    }

    /** `toggleStatus`: flips `activo` on the rows with that id; twice restores the list. */
    method ToggleStatus(id: string)
      modifies this
      ensures planes == UpdateById(old(planes), Id, id, Flip)
      ensures UpdateById(planes, Id, id, Flip) == old(planes)
      ensures carreras == old(carreras) && searchTerm == old(searchTerm)
      ensures isOpen == old(isOpen) && kind == old(kind) && data == old(data)
      ensures old(Valid()) ==> Valid()
    {
      FlipTwice(planes, id);
      planes := UpdateById(planes, Id, id, Flip);
    }
  }
}
