/**
 * `useTiposAula`: classroom types searched by name or description, saved
 * when their name holds more than whitespace, and deleted after a
 * confirmation.
 */
module TiposAulaApi {
  import opened Common
  import opened Catalog
  import Lists

  /** A classroom type as the server lists it, and as the modal form holds it. */
  datatype TipoAula = TipoAula(id_tipo_aula: string, nombre: Option<string>, descripcion: Option<string>)

  const Base: string := "/tipos-aula"

  predicate Matches(term: string, t: TipoAula) {
    MatchesSearch(term, [t.nombre, t.descripcion])
  }

  /** `filteredTipos`: all types for an empty search, else those matching it. */
  function FilteredTipos(tipos: seq<TipoAula>, term: string): (r: seq<TipoAula>)
    ensures term == "" ==> r == tipos
    ensures forall i :: 0 <= i < |r| ==> r[i] in tipos && Matches(term, r[i])
    ensures forall i :: 0 <= i < |tipos| && Matches(term, tipos[i]) ==> tipos[i] in r
  {
    if term == "" then tipos
    else
      var keep := (t: TipoAula) => Matches(term, t);
      Lists.FilterMembers(tipos, keep);
      Lists.Filter(tipos, keep)
  }

  /** A type without a description is still found by its name. */
  lemma FoundByNameWithoutDescription(tipos: seq<TipoAula>, k: nat)
    requires k < |tipos| && tipos[k].nombre.Some? && tipos[k].descripcion.None?
    ensures tipos[k] in FilteredTipos(tipos, Lower(tipos[k].nombre.value))
  {
    var t := tipos[k];
    FieldMatchesItself(t.nombre.value);
    assert FieldMatches(Lower(t.nombre.value), [t.nombre, t.descripcion][0]);
  }

  const NameRequiredMessage: string := "El nombre es obligatorio."

  /** `!nombre || nombre.trim() === ""`. */
  function SaveCheck(f: TipoAula): (r: Option<string>)
    ensures r.Some? ==> r.value == NameRequiredMessage
  {
    if f.nombre.None? || f.nombre.value == "" || Trim(f.nombre.value) == "" then Some(NameRequiredMessage) else None
  }

  /** A name is accepted exactly when it has a character that is not whitespace. */
  lemma SaveNeedsVisibleName(f: TipoAula)
    ensures SaveCheck(f).None? <==> f.nombre.Some? && exists i :: 0 <= i < |f.nombre.value| && !IsWs(f.nombre.value[i])
  {
    if f.nombre.Some? {
      TrimBlank(f.nombre.value);
    }
  }

  const AddForm: TipoAula := TipoAula("", Some(""), Some(""))

  function SavedNotice(kind: ModalKind): Notice {
    Shown(if kind == AddMode then "Tipo de aula creado correctamente" else "Tipo de aula actualizado correctamente", false)
  }

  /** The request that removes a type. */
  function DeleteRequest(id: string): (r: Request<TipoAula>)
    ensures r.verb == "DELETE" && r.body.None?
    ensures r.url == Base + "/eliminar/" + id
  {
    Request("DELETE", Base + "/eliminar/" + id, None)
  }

  /** Deleting never goes to the address a save uses. */
  lemma DeleteIsNotSave(id: string, kind: ModalKind, f: TipoAula)
    ensures DeleteRequest(id) != SaveRequest(Base, kind, f.id_tipo_aula, f)
  {
  }

  class TipoAulaCatalog {
    var tipos: seq<TipoAula>
    var searchTerm: string
    var notificationModal: Notice
    var notification: Notice
    var isOpen: bool
    var kind: ModalKind
    var data: TipoAula

    function Visible(): seq<TipoAula>
      reads this
    {
      FilteredTipos(tipos, searchTerm)
    }

    /** The hook once its load has brought `loaded`. */
    constructor (loaded: seq<TipoAula>)
      ensures tipos == loaded && searchTerm == "" && Visible() == loaded
      ensures notificationModal == Hidden && notification == Hidden
      ensures !isOpen && kind == AddMode && data == AddForm
    {
      tipos := loaded;
      searchTerm := "";
      notificationModal, notification := Hidden, Hidden;
      isOpen, kind, data := false, AddMode, AddForm;
    }

    method OpenAddModal()
      modifies this
      ensures isOpen && kind == AddMode && data == AddForm && notificationModal == Hidden
      ensures notification == old(notification) && tipos == old(tipos) && searchTerm == old(searchTerm)
    {
      notificationModal := Hidden;
      isOpen, kind, data := true, AddMode, AddForm;
    }

    method OpenEditModal(item: TipoAula)
      modifies this
      ensures isOpen && kind == EditMode && data == item && notificationModal == Hidden
      ensures notification == old(notification) && tipos == old(tipos) && searchTerm == old(searchTerm)
    {
      notificationModal := Hidden;
      isOpen, kind, data := true, EditMode, item;
    }

    method CloseModal()
      modifies this
      ensures !isOpen && notificationModal == Hidden
      ensures kind == old(kind) && data == old(data) && notification == old(notification)
      ensures tipos == old(tipos) && searchTerm == old(searchTerm)
    {
      notificationModal := Hidden;
      isOpen := false;
    }

    /** `handleSaveTipo`: the name check, then the whole form sent and the outcome in the modal. */
    method HandleSaveTipo(f: TipoAula, serverError: Option<string>) returns (sent: Option<Request<TipoAula>>)
      modifies this
      ensures SaveCheck(f).Some? ==> sent.None? && notificationModal == Shown(NameRequiredMessage, true)
      ensures SaveCheck(f).None? ==> sent == Some(SaveRequest(Base, kind, f.id_tipo_aula, f))
      ensures SaveCheck(f).None? && serverError.None? ==> notificationModal == SavedNotice(kind)
      ensures SaveCheck(f).None? && serverError.Some? ==>
                notificationModal == ErrorNotice(serverError.value, "Error al procesar la solicitud")
      ensures kind == old(kind) && data == old(data) && isOpen == old(isOpen)
      ensures notification == old(notification) && tipos == old(tipos) && searchTerm == old(searchTerm)
    {
      if SaveCheck(f).Some? {
        notificationModal := Shown(NameRequiredMessage, true);
        return None;
      }
      sent := Some(SaveRequest(Base, kind, f.id_tipo_aula, f));
      if serverError.Some? {
        notificationModal := ErrorNotice(serverError.value, "Error al procesar la solicitud");
      } else {
        notificationModal := SavedNotice(kind);
      }
    }

    /** `deleteTipo`: nothing without confirmation; else the request and its outcome on the page. */
    method DeleteTipo(id: string, confirmed: bool, serverError: Option<string>) returns (sent: Option<Request<TipoAula>>)
      modifies this
      ensures !confirmed ==> sent.None? && notification == old(notification)
      ensures confirmed ==> sent == Some(DeleteRequest(id))
      ensures confirmed && serverError.None? ==> notification == Shown("Tipo de aula eliminado correctamente", false)
      ensures confirmed && serverError.Some? ==>
                notification == ErrorNotice(serverError.value, "Error al eliminar el tipo de aula")
      ensures notificationModal == old(notificationModal) && isOpen == old(isOpen) && kind == old(kind)
      ensures data == old(data) && tipos == old(tipos) && searchTerm == old(searchTerm)
    {
      if !confirmed {
        return None;
      }
      sent := Some(DeleteRequest(id));
      if serverError.Some? {
        notification := ErrorNotice(serverError.value, "Error al eliminar el tipo de aula");
      } else {
        notification := Shown("Tipo de aula eliminado correctamente", false);
      }
    }
  }
}
