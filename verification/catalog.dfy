/**
 * What the catalogue hooks (teachers, deans, rooms, study plans, subjects,
 * careers, faculties, room types, cycles) have in common: the search and
 * filter predicates of their `filtered…` lists, the list updates by id of
 * the in-memory variants, and the request effect of the API-backed ones.
 */
module Catalog {
  import opened Common
  import Lists

  /** `modalState.type`. */
  datatype ModalKind = AddMode | EditMode | ViewMode | DetailsMode | ConfirmToggleMode

  /** A `notification` / `notificationModal` value. */
  datatype Notice = Hidden | Shown(message: string, isError: bool)

  /** A call to the backend, recorded instead of performed. */
  datatype Request<B> = Request(verb: string, url: string, body: Option<B>)

  /** What a modal holds: a form, or the row a status change waits to confirm. */
  datatype ModalData<F> = Form(form: F) | ToggleTarget(id: string, active: bool, nombre: Option<string>)

  /** The save request of an API-backed hook: create at `base`, or update at `base/actualizar/id`. */
  function SaveRequest<B>(base: string, kind: ModalKind, id: string, body: B): (r: Request<B>)
    ensures r.body == Some(body)
    ensures kind == AddMode ==> r.verb == "POST" && r.url == base
    ensures kind != AddMode ==> r.verb == "PUT" && r.url == base + "/actualizar/" + id
  {
    if kind == AddMode then Request("POST", base, Some(body))
    else Request("PUT", base + "/actualizar/" + id, Some(body))
  }

  /** The status request: an active row is deactivated, any other activated; no body. */
  function ToggleRequest<B>(base: string, id: string, active: bool): (r: Request<B>)
    ensures r.verb == "PUT" && r.body.None?
    ensures active ==> r.url == base + "/desactivar/" + id
    ensures !active ==> r.url == base + "/activar/" + id
  {
    Request("PUT", base + (if active then "/desactivar/" else "/activar/") + id, None)
  }

  /** A create never goes to an update's address, and the two status requests never share one. */
  lemma RequestsAreDistinct<B>(base: string, id: string, body: B)
    ensures SaveRequest(base, AddMode, id, body).url != SaveRequest(base, EditMode, id, body).url
    ensures ToggleRequest<B>(base, id, true).url != ToggleRequest<B>(base, id, false).url
  {
    var d := ToggleRequest<B>(base, id, true).url;
    var a := ToggleRequest<B>(base, id, false).url;
    assert d[|base| + 1] == 'd' && a[|base| + 1] == 'a';
  }

  /** The error notice of a failed request: `error.message || fallback`. */
  function ErrorNotice(message: string, fallback: string): (n: Notice)
    ensures n.Shown? && n.isError
    ensures n.message == (if message == "" then fallback else message)
  {
    Shown(if message == "" then fallback else message, true)
  }

  // ---------------------------------------------------------------------
  // Filters
  // ---------------------------------------------------------------------

  /** `field?.toLowerCase().includes(term.toLowerCase())`; an absent field never matches. */
  predicate FieldMatches(term: string, field: Option<string>) {
    field.Some? && Includes(Lower(field.value), Lower(term))
  }

  /** `!searchTerm || f1?.… || f2?.… || …`. */
  predicate MatchesSearch(term: string, fields: seq<Option<string>>) {
    term == "" || exists i :: 0 <= i < |fields| && FieldMatches(term, fields[i])
  }

  /** The search does not depend on the case of the term. */
  lemma SearchIgnoresTermCase(term: string, fields: seq<Option<string>>)
    ensures MatchesSearch(Lower(term), fields) <==> MatchesSearch(term, fields)
  {
    LowerIdempotent(term);
    assert forall i :: 0 <= i < |fields| ==> (FieldMatches(Lower(term), fields[i]) <==> FieldMatches(term, fields[i]));
  }

  /** Any present field, whatever its case, matches its own lower-case text. */
  lemma FieldMatchesItself(field: string)
    ensures FieldMatches(Lower(field), Some(field))
  {
    LowerIdempotent(field);
    assert Lower(field) <= Lower(field);
    assert OccursAt(Lower(field), Lower(Lower(field)), 0);
  }

  /** The state filter: "activos" keeps active rows, "inactivos" inactive ones, anything else all. */
  predicate MatchesEstado(filter: string, activo: bool) {
    if filter == "activos" then activo
    else if filter == "inactivos" then !activo
    else true
  }

  /** `!filter || value === filter`, with the select's value always a string. */
  predicate MatchesExact(filter: string, value: Field) {
    filter == "" || StrictEq(value, Str(filter))
  }

  /** With every filter left empty, a row passes. */
  lemma EmptyFiltersPass(fields: seq<Option<string>>, activo: bool, value: Field)
    ensures MatchesSearch("", fields) && MatchesEstado("", activo) && MatchesExact("", value)
  {
  }

  /** A number never equals the text a select yields, so a numeric id passes only the empty filter. */
  lemma NumericValueFailsSelect(filter: string, n: int)
    ensures MatchesExact(filter, Int(n)) <==> filter == ""
  {
  }

  /** The two state filters split the rows between them. */
  lemma EstadoFiltersPartition(activo: bool)
    ensures MatchesEstado("activos", activo) != MatchesEstado("inactivos", activo)
  {
  }

  // ---------------------------------------------------------------------
  // List updates by id
  // ---------------------------------------------------------------------

  /** No two rows share an id. */
  predicate UniqueIds<T, K(==)>(s: seq<T>, idOf: T -> K) {
    forall i, j :: 0 <= i < j < |s| ==> idOf(s[i]) != idOf(s[j])
  }

  predicate HasId<T, K(==)>(s: seq<T>, idOf: T -> K, id: K) {
    exists i :: 0 <= i < |s| && idOf(s[i]) == id
  }

  /** `list.map(d => d.id === id ? x : d)`. */
  function ReplaceById<T, K(==)>(s: seq<T>, idOf: T -> K, id: K, x: T): (r: seq<T>)
    ensures |r| == |s|
    ensures forall i :: 0 <= i < |s| && idOf(s[i]) == id ==> r[i] == x
    ensures forall i :: 0 <= i < |s| && idOf(s[i]) != id ==> r[i] == s[i]
  {
    Lists.UpdateWhere(s, (d: T) => idOf(d) == id, (d: T) => x)
  }

  /** `list.map(d => d.id === id ? flip(d) : d)`. */
  function UpdateById<T, K(==)>(s: seq<T>, idOf: T -> K, id: K, flip: T -> T): (r: seq<T>)
    ensures |r| == |s|
    ensures forall i :: 0 <= i < |s| && idOf(s[i]) == id ==> r[i] == flip(s[i])
    ensures forall i :: 0 <= i < |s| && idOf(s[i]) != id ==> r[i] == s[i]
  {
    Lists.UpdateWhere(s, (d: T) => idOf(d) == id, flip)
  }

  /** `list.filter(d => d.id !== id)`. */
  function RemoveById<T, K(==)>(s: seq<T>, idOf: T -> K, id: K): (r: seq<T>)
    ensures |r| <= |s|
    ensures forall i :: 0 <= i < |r| ==> r[i] in s && idOf(r[i]) != id
    ensures forall i :: 0 <= i < |s| && idOf(s[i]) != id ==> s[i] in r
  {
    var keep := (d: T) => idOf(d) != id;
    Lists.FilterMembers(s, keep);
    Lists.Filter(s, keep)
  }

  /** Appending a row whose id is new keeps the ids unique. */
  lemma AppendFreshKeepsUnique<T, K>(s: seq<T>, idOf: T -> K, x: T)
    requires UniqueIds(s, idOf) && !HasId(s, idOf, idOf(x))
    ensures UniqueIds(s + [x], idOf)
  {
    var t := s + [x];
    forall i, j | 0 <= i < j < |t| ensures idOf(t[i]) != idOf(t[j]) {
      if j == |s| {
        assert t[i] == s[i];
      } else {
        assert t[i] == s[i] && t[j] == s[j];
      }
    }
  }

  /** Replacing by id with a row of that same id keeps every id where it was. */
  lemma ReplaceKeepsIds<T, K>(s: seq<T>, idOf: T -> K, x: T)
    ensures var r := ReplaceById(s, idOf, idOf(x), x);
            forall i :: 0 <= i < |s| ==> idOf(r[i]) == idOf(s[i])
    ensures UniqueIds(s, idOf) ==> UniqueIds(ReplaceById(s, idOf, idOf(x), x), idOf)
  {
    var r := ReplaceById(s, idOf, idOf(x), x);
    assert forall i :: 0 <= i < |s| ==> idOf(r[i]) == idOf(s[i]);
  }

  /** An update that keeps ids keeps them unique, and applying an involution twice restores the list. */
  lemma UpdateTwiceRestores<T, K>(s: seq<T>, idOf: T -> K, id: K, flip: T -> T)
    requires forall i :: 0 <= i < |s| ==> idOf(flip(s[i])) == idOf(s[i]) && flip(flip(s[i])) == s[i]
    ensures UpdateById(UpdateById(s, idOf, id, flip), idOf, id, flip) == s
    ensures UniqueIds(s, idOf) ==> UniqueIds(UpdateById(s, idOf, id, flip), idOf)
  {
    var r := UpdateById(s, idOf, id, flip);
    assert forall i :: 0 <= i < |s| ==> idOf(r[i]) == idOf(s[i]);
  }

  /** An update that keeps every row's id keeps the ids unique. */
  lemma UpdateKeepsUnique<T, K>(s: seq<T>, idOf: T -> K, id: K, f: T -> T)
    requires forall i :: 0 <= i < |s| ==> idOf(f(s[i])) == idOf(s[i])
    ensures forall i :: 0 <= i < |s| ==> idOf(UpdateById(s, idOf, id, f)[i]) == idOf(s[i])
    ensures UniqueIds(s, idOf) ==> UniqueIds(UpdateById(s, idOf, id, f), idOf)
  {
    var r := UpdateById(s, idOf, id, f);
    assert forall i :: 0 <= i < |s| ==> idOf(r[i]) == idOf(s[i]);
  }

  /** Removing an id no row has changes nothing. */
  lemma RemoveMissingId<T, K>(s: seq<T>, idOf: T -> K, id: K)
    requires !HasId(s, idOf, id)
    ensures RemoveById(s, idOf, id) == s
  {
    Lists.FilterKeepsAll(s, (d: T) => idOf(d) != id);
  }

  /** With unique ids, removing the id of row `k` removes exactly that row. */
  lemma RemoveUniqueId<T, K>(s: seq<T>, idOf: T -> K, k: nat)
    requires UniqueIds(s, idOf) && k < |s|
    ensures RemoveById(s, idOf, idOf(s[k])) == s[..k] + s[k + 1..]
  {
    var id := idOf(s[k]);
    var p := (d: T) => idOf(d) != id;
    var pre, post := s[..k], s[k + 1..];
    assert s == pre + [s[k]] + post;
    forall i | 0 <= i < |pre| ensures p(pre[i]) {
      assert pre[i] == s[i];
    }
    forall i | 0 <= i < |post| ensures p(post[i]) {
      assert post[i] == s[k + 1 + i];
    }
    Lists.FilterKeepsAll(pre, p);
    Lists.FilterKeepsAll(post, p);
    assert Lists.Filter([s[k]], p) == [];
    Lists.FilterAppend(pre, [s[k]], p);
    Lists.FilterAppend(pre + [s[k]], post, p);
  }

  /** Removing keeps the ids unique. */
  lemma {:induction false} RemoveKeepsUnique<T, K>(s: seq<T>, idOf: T -> K, id: K)
    requires UniqueIds(s, idOf)
    ensures UniqueIds(RemoveById(s, idOf, id), idOf)
    decreases |s|
  {
    if |s| > 0 {
      var p := (d: T) => idOf(d) != id;
      RemoveKeepsUnique(s[1..], idOf, id);
      var rest := RemoveById(s[1..], idOf, id);
      assert RemoveById(s, idOf, id) == (if p(s[0]) then [s[0]] else []) + rest;
      if p(s[0]) {
        forall i | 0 <= i < |rest| ensures idOf(rest[i]) != idOf(s[0]) {
          var j :| 0 <= j < |s[1..]| && s[1..][j] == rest[i];
          assert s[j + 1] == rest[i];
        }
        var t := [s[0]] + rest;
        forall a, b | 0 <= a < b < |t| ensures idOf(t[a]) != idOf(t[b]) {
          assert t[b] == rest[b - 1];
          if a > 0 {
            assert t[a] == rest[a - 1];
          }
        }
      }
    }
  }
}
