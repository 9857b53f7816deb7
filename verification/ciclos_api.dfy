/**
 * `useCiclos`: academic cycles searched by name, saved when named and
 * dated, edited with their timestamps cut to the date, and activated after
 * a confirmation.
 */
module CiclosApi {
  import opened Common
  import opened Catalog
  import Lists

  /** A cycle as the server lists it; the dates are ISO texts. */
  datatype Ciclo = Ciclo(id_ciclo_academico: string, nombre: string, fecha_inicio: string, fecha_fin: string, activo: bool)

  /** The modal form, sent whole; the add form has no id and no state. */
  datatype CicloForm = CicloForm(id_ciclo_academico: string, nombre: string, fecha_inicio: string, fecha_fin: string,
                                 activo: Option<bool>)

  const Base: string := "/ciclos"

  predicate Matches(term: string, c: Ciclo) {
    Includes(Lower(c.nombre), Lower(term))
  }

  /** `filteredCiclos`: the cycles whose lower-case name contains the lower-case term. */
  function FilteredCiclos(ciclos: seq<Ciclo>, term: string): (r: seq<Ciclo>)
    ensures forall i :: 0 <= i < |r| ==> r[i] in ciclos && Matches(term, r[i])
    ensures forall i :: 0 <= i < |ciclos| && Matches(term, ciclos[i]) ==> ciclos[i] in r
  {
    var keep := (c: Ciclo) => Matches(term, c);
    Lists.FilterMembers(ciclos, keep);
    Lists.Filter(ciclos, keep)
  }

  /** The filter has no guard for an empty term, and needs none: the empty term keeps every cycle in order. */
  lemma EmptySearchKeepsAll(ciclos: seq<Ciclo>)
    ensures FilteredCiclos(ciclos, "") == ciclos
  {
    assert Lower("") == "";
    forall i | 0 <= i < |ciclos| ensures Matches("", ciclos[i]) {
      IncludesEmpty(Lower(ciclos[i].nombre));
    }
    Lists.FilterKeepsAll(ciclos, (c: Ciclo) => Matches("", c));
  }

  /** `text.split('T')[0]`: the date part of an ISO timestamp. */
  function DatePart(s: string): string {
    Split(s, "T")[0]
  }

  /** The date part of `day + "T" + time` is `day`. */
  lemma DatePartOfTimestamp(day: string, time: string)
    requires 'T' !in day
    ensures DatePart(day + "T" + time) == day
  {
    var s := day + "T" + time;
    IndexOfAfterFreePrefix(day, "T", time);
    assert Split(s, "T")[0] == s[..|day|];
    assert s[..|day|] == day;
  }

  /** Cutting twice is cutting once, so a date already cut stays as it is. */
  lemma DatePartIdempotent(s: string)
    ensures DatePart(DatePart(s)) == DatePart(s)
  {
    var d := DatePart(s);
    SplitPiecesAvoidSeparator(s, "T");
    assert !Includes(d, "T");
    forall j | 0 <= j < |d| ensures d[j] != 'T' {
      assert !OccursAt(d, "T", j);
      assert d[j..j + 1] == [d[j]];
    }
    SplitWithoutSeparator(d, "T");
  }

  const RequiredMessage: string := "Todos los campos son obligatorios."

  function SaveCheck(f: CicloForm): (r: Option<string>)
    ensures r.None? <==> f.nombre != "" && f.fecha_inicio != "" && f.fecha_fin != ""
    ensures r.Some? ==> r.value == RequiredMessage
  {
    if f.nombre == "" || f.fecha_inicio == "" || f.fecha_fin == "" then Some(RequiredMessage) else None
  }

  /** `openEditModal`: a copy of the cycle with both dates cut to their date part. */
  function EditForm(c: Ciclo): (f: CicloForm)
    ensures f.id_ciclo_academico == c.id_ciclo_academico && f.nombre == c.nombre && f.activo == Some(c.activo)
    ensures f.fecha_inicio == DatePart(c.fecha_inicio) && f.fecha_fin == DatePart(c.fecha_fin)
  {
    CicloForm(c.id_ciclo_academico, c.nombre, DatePart(c.fecha_inicio), DatePart(c.fecha_fin), Some(c.activo))
  }

  /** A named cycle with timestamps for both dates can be saved straight from its edit form. */
  lemma TimestampedCycleCanBeResaved(c: Ciclo, d1: string, t1: string, d2: string, t2: string)
    requires c.nombre != "" && d1 != "" && d2 != "" && 'T' !in d1 && 'T' !in d2
    requires c.fecha_inicio == d1 + "T" + t1 && c.fecha_fin == d2 + "T" + t2
    ensures SaveCheck(EditForm(c)).None?
    ensures EditForm(c).fecha_inicio == d1 && EditForm(c).fecha_fin == d2
  {
    DatePartOfTimestamp(d1, t1);
    DatePartOfTimestamp(d2, t2);
  }

  const AddForm: CicloForm := CicloForm("", "", "", "", None)

  /** The request that makes one cycle the active one. */
  function ActivateRequest(id: string): (r: Request<CicloForm>)
    ensures r.verb == "PUT" && r.body.None?
    ensures r.url == Base + "/activar/" + id
  {
    Request("PUT", Base + "/activar/" + id, None)
  }

  /** Activating never goes to the address an edit uses. */
  lemma ActivateIsNotEdit(id: string, f: CicloForm)
    ensures ActivateRequest(id).url != SaveRequest(Base, EditMode, f.id_ciclo_academico, f).url
  {
    var a := ActivateRequest(id).url;
    var e := SaveRequest(Base, EditMode, f.id_ciclo_academico, f).url;
    assert a[|Base| + 1] == 'a' && e[|Base| + 1] == 'a';
    assert a[|Base| + 2] == 'c' && e[|Base| + 2] == 'c';
    assert a[|Base| + 3] == 't' && e[|Base| + 3] == 't';
    assert a[|Base| + 4] == 'i' != e[|Base| + 4];
  }

  /** `error.message || fallback` for an alert. */
  function AlertText(message: string, fallback: string): (r: string)
    ensures r != ""  <== fallback != ""
    ensures message != "" ==> r == message
    ensures message == "" ==> r == fallback
  {
    if message == "" then fallback else message
  }

  class CicloCatalog {
    var ciclos: seq<Ciclo>
    var searchTerm: string
    var isOpen: bool
    var kind: ModalKind
    var data: CicloForm

    function Visible(): seq<Ciclo>
      reads this
    {
      FilteredCiclos(ciclos, searchTerm)
    }

    /** The hook once its load has brought `loaded`. */
    constructor (loaded: seq<Ciclo>)
      ensures ciclos == loaded && searchTerm == "" && Visible() == loaded
      ensures !isOpen && kind == AddMode && data == AddForm
    {
      ciclos := loaded;
      searchTerm := "";
      isOpen, kind, data := false, AddMode, AddForm;
      EmptySearchKeepsAll(loaded);
    }

    method OpenAddModal()
      modifies this
      ensures isOpen && kind == AddMode && data == AddForm
      ensures ciclos == old(ciclos) && searchTerm == old(searchTerm)
    {
      isOpen, kind, data := true, AddMode, AddForm;
    }

    method OpenEditModal(item: Ciclo)
      modifies this
      ensures isOpen && kind == EditMode && data == EditForm(item)
      ensures ciclos == old(ciclos) && searchTerm == old(searchTerm)
    {
      isOpen, kind, data := true, EditMode, EditForm(item);
    }

    method CloseModal()
      modifies this
      ensures !isOpen && kind == old(kind) && data == old(data)
      ensures ciclos == old(ciclos) && searchTerm == old(searchTerm)
    {
      isOpen := false;
    }

    /** `handleSaveCiclo`: the check, then the whole form sent; success closes the modal, failure alerts. */
    method HandleSaveCiclo(f: CicloForm, serverError: Option<string>)
      returns (alert: Option<string>, sent: Option<Request<CicloForm>>)
      modifies this
      ensures SaveCheck(f).Some? ==> alert == SaveCheck(f) && sent.None? && isOpen == old(isOpen)
      ensures SaveCheck(f).None? ==> sent == Some(SaveRequest(Base, old(kind), f.id_ciclo_academico, f))
      ensures SaveCheck(f).None? && serverError.None? ==> alert.None? && !isOpen
      ensures SaveCheck(f).None? && serverError.Some? ==>
                alert == Some(AlertText(serverError.value, "Error al guardar el ciclo")) && isOpen == old(isOpen)
      ensures kind == old(kind) && data == old(data) && ciclos == old(ciclos) && searchTerm == old(searchTerm)
    {
      alert := SaveCheck(f);
      if alert.Some? {
        return alert, None;
      }
      sent := Some(SaveRequest(Base, kind, f.id_ciclo_academico, f));
      if serverError.Some? {
        alert := Some(AlertText(serverError.value, "Error al guardar el ciclo"));
      } else {
        CloseModal();
      }
    }

    /** `handleActivarCiclo`: nothing without confirmation; else the request, and an alert if it fails. */
    method HandleActivarCiclo(id: string, confirmed: bool, serverError: Option<string>)
      returns (alert: Option<string>, sent: Option<Request<CicloForm>>)
      ensures !confirmed ==> sent.None? && alert.None?
      ensures confirmed ==> sent == Some(ActivateRequest(id))
      ensures confirmed && serverError.None? ==> alert.None?
      ensures confirmed && serverError.Some? ==> alert == Some(AlertText(serverError.value, "Error al activar el ciclo"))
    {
      if !confirmed {
        return None, None;
      }
      sent := Some(ActivateRequest(id));
      alert := if serverError.Some? then Some(AlertText(serverError.value, "Error al activar el ciclo")) else None;
    }
  }
}
