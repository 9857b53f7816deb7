/**
 * `useDocentes` (the in-memory `.js` hook): the teacher list with its
 * search, validation, add/edit, delete, status toggle, teaching-history
 * modal and CSV import. `crypto.randomUUID` is a supply of fresh ids and
 * `window.confirm` a boolean answer.
 */
module DocentesJs {
  import opened Common
  import opened Catalog
  import Lists
  import CsvImport

  datatype Docente = Docente(id_docente: string, nombres: string, apellidos: string, tipo: string,
                             carga_maxima: Field, activo: bool)

  /** A row of the teaching-history table. */
  datatype HistoryEntry = HistoryEntry(id_clase: string, id_docente: string, materia: string, ciclo: string, codigo: string)

  function Id(d: Docente): string { d.id_docente }
  function Flip(d: Docente): Docente { d.(activo := !d.activo) }

  /** Flipping the rows with one id keeps the ids, and flipping them again restores the list. */
  lemma FlipTwice(s: seq<Docente>, id: string)
    ensures UpdateById(UpdateById(s, Id, id, Flip), Id, id, Flip) == s
    ensures UniqueIds(s, Id) ==> UniqueIds(UpdateById(s, Id, id, Flip), Id)
  {
    UpdateTwiceRestores(s, Id, id, Flip);
  }

  const NameRequiredMessage: string := "El nombre es obligatorio."
  const SurnameRequiredMessage: string := "El apellido es obligatorio."
  const DefaultTipo: string := "Tiempo Completo"

  /** The form `openAddModal` starts from; it has no id yet. */
  const AddForm: Docente := Docente("", "", "", DefaultTipo, Int(40), true)

  /** `validateDocente`: names first, then surnames. */
  function ValidateDocente(f: Docente): (r: Option<string>)
    ensures f.nombres == "" ==> r == Some(NameRequiredMessage)
    ensures f.nombres != "" && f.apellidos == "" ==> r == Some(SurnameRequiredMessage)
    ensures r.None? <==> f.nombres != "" && f.apellidos != ""
  {
    if f.nombres == "" then Some(NameRequiredMessage)
    else if f.apellidos == "" then Some(SurnameRequiredMessage)
    else None
  }

  predicate Matches(term: string, d: Docente) {
    MatchesSearch(term, [Some(d.nombres), Some(d.apellidos)])
  }

  /** `filteredDocentes`: everything for an empty term, else the name or surname matches. */
  function FilteredDocentes(docentes: seq<Docente>, term: string): (r: seq<Docente>)
    ensures term == "" ==> r == docentes
    ensures forall i :: 0 <= i < |r| ==> r[i] in docentes && Matches(term, r[i])
    ensures forall i :: 0 <= i < |docentes| && Matches(term, docentes[i]) ==> docentes[i] in r
  {
    if term == "" then docentes
    else
      var keep := (d: Docente) => Matches(term, d);
      Lists.FilterMembers(docentes, keep);
      Lists.Filter(docentes, keep)
  }

  /** The history entries of one teacher, in table order. */
  function HistoryOf(history: seq<HistoryEntry>, id: string): (r: seq<HistoryEntry>)
    ensures forall i :: 0 <= i < |r| ==> r[i] in history && r[i].id_docente == id
    ensures forall i :: 0 <= i < |history| && history[i].id_docente == id ==> history[i] in r
  {
    var keep := (h: HistoryEntry) => h.id_docente == id;
    Lists.FilterMembers(history, keep);
    Lists.Filter(history, keep)
  }

  // ---------------------------------------------------------------------
  // CSV import
  // ---------------------------------------------------------------------

  /** `row.nombres && row.apellidos`: a missing column reads as undefined. */
  predicate ValidRow(row: CsvImport.Record) {
    "nombres" in row && row["nombres"] != "" && "apellidos" in row && row["apellidos"] != ""
  }

  function Column(row: CsvImport.Record, key: string): Field {
    if key in row then Str(row[key]) else Undef
  }

  /** The teacher an import row becomes. */
  function FromRow(row: CsvImport.Record, id: string): (d: Docente)
    requires ValidRow(row)
    ensures d.id_docente == id && d.nombres == row["nombres"] && d.apellidos == row["apellidos"] && d.activo
    ensures d.tipo == (if "tipo" in row && row["tipo"] != "" then row["tipo"] else DefaultTipo)
    ensures d.carga_maxima == Int(ParseIntOr(Column(row, "carga_maxima"), 40))
  {
    Docente(id, row["nombres"], row["apellidos"],
            if "tipo" in row && row["tipo"] != "" then row["tipo"] else DefaultTipo,
            Int(ParseIntOr(Column(row, "carga_maxima"), 40)), true)
  }

  /** A load written as "0x10" is read as sixteen hours, not replaced by the default of 40. */
  lemma HexLoadIsRead(row: CsvImport.Record, id: string)
    requires ValidRow(row) && Column(row, "carga_maxima") == Str("0x10")
    ensures FromRow(row, id).carga_maxima == Int(16)
  {
    HexSixteen("0x10");
  }

  lemma HexSixteen(s: string)
    requires s == "0x10"
    ensures ParseInt(Str(s)) == Int(16)
  {
    var h := "10";
    assert forall i :: 0 <= i < |h| ==> DigitOf(h[i]) < 16 by {
      assert DigitOf(h[0]) == 1 && DigitOf(h[1]) == 0;
    }
    assert RadixValue(h, 16) == 16 by {
      assert h[..1] == "1";
      assert RadixValue("1", 16) == 1 by { assert "1"[..0] == []; }
    }
    assert s == "0x" + h;
    ParseIntReadsHex(h);
  }

  /**
   * The teachers the `forEach` of `handleImportDocentes` pushes for `rows`,
   * the k-th of them taking the k-th fresh id.
   */
  function Imported(rows: seq<CsvImport.Record>, ids: seq<string>): (r: seq<Docente>)
    requires |ids| >= |rows|
    ensures |r| <= |rows|
    decreases |rows|
  {
    if |rows| == 0 then []
    else
      var prev := Imported(rows[..|rows| - 1], ids);
      var row := rows[|rows| - 1];
      if ValidRow(row) then prev + [FromRow(row, ids[|prev|])] else prev
  }

  /** One more valid row, numbered with the next id, extends a numbered import. */
  lemma NumberedSnoc(prev: seq<Docente>, validInit: seq<CsvImport.Record>, last: CsvImport.Record, ids: seq<string>)
    requires ValidRow(last) && |prev| == |validInit| < |ids|
    requires forall k :: 0 <= k < |validInit| ==> ValidRow(validInit[k])
    requires forall k :: 0 <= k < |validInit| ==> prev[k] == FromRow(validInit[k], ids[k])
    ensures var valid := validInit + [last];
            forall k :: 0 <= k < |valid| ==> (prev + [FromRow(last, ids[|prev|])])[k] == FromRow(valid[k], ids[k])
  {
    var valid := validInit + [last];
    forall k | 0 <= k < |valid| ensures (prev + [FromRow(last, ids[|prev|])])[k] == FromRow(valid[k], ids[k]) {
      if k < |validInit| {
        assert valid[k] == validInit[k];
      }
    }
  }

  /** The import keeps exactly the valid rows, in order, and numbers them with the fresh ids. */
  lemma {:induction false} ImportedAreTheValidRows(rows: seq<CsvImport.Record>, ids: seq<string>)
    requires |ids| >= |rows|
    ensures var valid := Lists.Filter(rows, ValidRow);
            && |Imported(rows, ids)| == |valid|
            && forall k :: 0 <= k < |valid| ==> Imported(rows, ids)[k] == FromRow(valid[k], ids[k])
    decreases |rows|
  {
    if |rows| > 0 {
      var n := |rows| - 1;
      var init, last := rows[..n], rows[n];
      ImportedAreTheValidRows(init, ids);
      assert rows == init + [last];
      Lists.FilterSnoc(init, last, ValidRow);
      var valid := Lists.Filter(rows, ValidRow);
      var validInit := Lists.Filter(init, ValidRow);
      var prev := Imported(init, ids);
      if ValidRow(last) {
        assert Imported(rows, ids) == prev + [FromRow(last, ids[|prev|])];
        NumberedSnoc(prev, validInit, last, ids);
      } else {
        assert Imported(rows, ids) == prev;
      }
    }
  }

  /** The forward `forEach` loop, counting what it pushes. */
  method ImportRows(rows: seq<CsvImport.Record>, ids: seq<string>) returns (newDocentes: seq<Docente>, importedCount: nat)
    requires |ids| >= |rows|
    ensures newDocentes == Imported(rows, ids)
    ensures importedCount == |newDocentes|
  {
    newDocentes := [];
    importedCount := 0;
    var i := 0;
    while i < |rows|
      invariant 0 <= i <= |rows|
      invariant newDocentes == Imported(rows[..i], ids)
      invariant importedCount == |newDocentes|
    {
      assert rows[..i + 1][..i] == rows[..i];
      if ValidRow(rows[i]) {
        newDocentes := newDocentes + [FromRow(rows[i], ids[importedCount])];
        importedCount := importedCount + 1;
      }
      i := i + 1;
    }
    assert rows[..i] == rows;
  }

  function ImportedMessage(count: nat): string {
    "\U{2705} Se importaron " + NatText(count) + " docentes correctamente."
  }

  const NothingImportedMessage: string :=
    "\U{26A0}\U{FE0F} No se encontraron docentes v\U{00E1}lidos en el archivo. Verifica las columnas (nombres, apellidos)."

  /** Fresh ids: pairwise distinct and unused by the list. */
  predicate FreshIds(ids: seq<string>, docentes: seq<Docente>) {
    (forall i, j :: 0 <= i < j < |ids| ==> ids[i] != ids[j])
    && forall i :: 0 <= i < |ids| ==> !HasId(docentes, Id, ids[i])
  }

  /** Importing with fresh ids keeps the list's ids unique. */
  lemma ImportKeepsUnique(docentes: seq<Docente>, rows: seq<CsvImport.Record>, ids: seq<string>)
    requires |ids| >= |rows| && UniqueIds(docentes, Id) && FreshIds(ids, docentes)
    ensures UniqueIds(docentes + Imported(rows, ids), Id)
  {
    ImportedAreTheValidRows(rows, ids);
    var added := Imported(rows, ids);
    var valid := Lists.Filter(rows, ValidRow);
    assert forall k :: 0 <= k < |added| ==> added[k].id_docente == ids[k];
    var t := docentes + added;
    forall i, j | 0 <= i < j < |t| ensures Id(t[i]) != Id(t[j]) {
      if j >= |docentes| {
        assert t[j] == added[j - |docentes|];
        if i >= |docentes| {
          assert t[i] == added[i - |docentes|];
        } else {
          assert t[i] == docentes[i];
        }
      } else {
        assert t[i] == docentes[i] && t[j] == docentes[j];
      }
    }
  }

  // ---------------------------------------------------------------------
  // The hook's state
  // ---------------------------------------------------------------------

  class DocenteStore {
    var docentes: seq<Docente>
    var searchTerm: string
    var teachingHistory: seq<HistoryEntry>
    var isOpen: bool
    var kind: ModalKind
    var data: Option<Docente>

    /** The list the hook hands out. */
    function Visible(): seq<Docente>
      reads this
    {
      FilteredDocentes(docentes, searchTerm)
    }

    predicate Valid()
      reads this
    {
      UniqueIds(docentes, Id)
    }

    constructor (initial: seq<Docente>)
      ensures docentes == initial && searchTerm == "" && teachingHistory == []
      ensures !isOpen && kind == ViewMode && data.None?
    {
      docentes := initial;
      searchTerm := "";
      teachingHistory := [];
      isOpen := false;
      kind := ViewMode;
      data := None;
    }

    method SetSearchTerm(term: string)
      modifies this
      ensures searchTerm == term && docentes == old(docentes)
      ensures teachingHistory == old(teachingHistory) && isOpen == old(isOpen) && kind == old(kind) && data == old(data)
    {
      searchTerm := term;
    }

    /** `openDetailsModal`: the teacher's history, from the history table given. */
    method OpenDetailsModal(d: Docente, history: seq<HistoryEntry>)
      modifies this
      ensures teachingHistory == HistoryOf(history, d.id_docente)
      ensures isOpen && kind == DetailsMode && data == Some(d)
      ensures docentes == old(docentes) && searchTerm == old(searchTerm)
    {
      teachingHistory := HistoryOf(history, d.id_docente);
      isOpen, kind, data := true, DetailsMode, Some(d);
    }

    method OpenAddModal()
      modifies this
      ensures isOpen && kind == AddMode && data == Some(AddForm)
      ensures docentes == old(docentes) && searchTerm == old(searchTerm) && teachingHistory == old(teachingHistory)
    {
      isOpen, kind, data := true, AddMode, Some(AddForm);
    }

    method OpenEditModal(d: Docente)
      modifies this
      ensures isOpen && kind == EditMode && data == Some(d)
      ensures docentes == old(docentes) && searchTerm == old(searchTerm) && teachingHistory == old(teachingHistory)
    {
      isOpen, kind, data := true, EditMode, Some(d);
    }

    /** `closeModal`: hides the modal and forgets the history. */
    method CloseModal()
      modifies this
      ensures !isOpen && teachingHistory == []
      ensures kind == old(kind) && data == old(data) && docentes == old(docentes) && searchTerm == old(searchTerm)
    {
      isOpen := false;
      teachingHistory := [];
    }

    /**
     * `handleSaveDocente`: a validation error is alerted and changes nothing;
     * otherwise add appends the form with a fresh id, any other mode replaces
     * the row with the form's id, and the modal closes.
     */
    method HandleSaveDocente(formData: Docente, freshId: string) returns (alert: Option<string>)
      modifies this
      ensures alert == ValidateDocente(formData)
      ensures alert.Some? ==> docentes == old(docentes) && isOpen == old(isOpen) && teachingHistory == old(teachingHistory)
      ensures alert.None? && old(kind) == AddMode ==>
                docentes == old(docentes) + [formData.(id_docente := freshId, activo := true)]
      ensures alert.None? && old(kind) != AddMode ==>
                docentes == ReplaceById(old(docentes), Id, formData.id_docente, formData)
      ensures alert.None? ==> !isOpen && teachingHistory == []
      ensures kind == old(kind) && data == old(data) && searchTerm == old(searchTerm)
      ensures old(Valid()) && !HasId(old(docentes), Id, freshId) ==> Valid()
    {
      alert := ValidateDocente(formData);
      if alert.Some? {
        return;
      }
      if kind == AddMode {
        var added := formData.(id_docente := freshId, activo := true);
        if Valid() && !HasId(docentes, Id, freshId) {
          AppendFreshKeepsUnique(docentes, Id, added);
        }
        docentes := docentes + [added];
      } else {
        ReplaceKeepsIds(docentes, Id, formData);
        docentes := ReplaceById(docentes, Id, formData.id_docente, formData);
      }
      CloseModal();
    }

    /** `deleteDocente`: removes that id, only when confirmed. */
    method DeleteDocente(id: string, confirmed: bool)
      modifies this
      ensures docentes == (if confirmed then RemoveById(old(docentes), Id, id) else old(docentes))
      ensures searchTerm == old(searchTerm) && isOpen == old(isOpen) && kind == old(kind) && data == old(data)
      ensures teachingHistory == old(teachingHistory)
      ensures old(Valid()) ==> Valid()
    {
      if confirmed {
        if Valid() {
          RemoveKeepsUnique(docentes, Id, id);
        }
        docentes := RemoveById(docentes, Id, id);
      }
    }

    /** `toggleStatus`: flips `activo` on the rows with that id. */
    method ToggleStatus(id: string)
      modifies this
      ensures docentes == UpdateById(old(docentes), Id, id, Flip)
      ensures searchTerm == old(searchTerm) && isOpen == old(isOpen) && kind == old(kind) && data == old(data)
      ensures teachingHistory == old(teachingHistory)
      ensures old(Valid()) ==> Valid()
    {
      FlipTwice(docentes, id);
      docentes := UpdateById(docentes, Id, id, Flip);
    }

    /**
     * `handleImportDocentes`: appends the valid rows after the existing
     * teachers and reports how many; nothing is appended when none is valid.
     */
    method HandleImportDocentes(csvData: seq<CsvImport.Record>, ids: seq<string>) returns (alert: string)
      requires |ids| >= |csvData|
      modifies this
      ensures docentes == old(docentes) + Imported(csvData, ids)
      ensures |Imported(csvData, ids)| > 0 ==> alert == ImportedMessage(|Imported(csvData, ids)|)
      ensures |Imported(csvData, ids)| == 0 ==> alert == NothingImportedMessage
      ensures searchTerm == old(searchTerm) && isOpen == old(isOpen) && kind == old(kind) && data == old(data)
      ensures teachingHistory == old(teachingHistory)
      ensures old(Valid()) && FreshIds(ids, old(docentes)) ==> Valid()
    {
      var newDocentes, importedCount := ImportRows(csvData, ids);
      if importedCount > 0 {
        if Valid() && FreshIds(ids, docentes) {
          ImportKeepsUnique(docentes, csvData, ids);
        }
        docentes := docentes + newDocentes;
        alert := ImportedMessage(importedCount);
      } else {
        assert docentes + newDocentes == docentes;
        alert := NothingImportedMessage;
      }
    }
  }
}
