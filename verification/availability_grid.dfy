/**
 * The availability page (`RegistroDisponibilidad`): rows are the distinct
 * "HH:MM - HH:MM" ranges of the block catalogue in ascending order, columns
 * are Monday to Saturday, and each cell shows the block found there.
 */
module AvailabilityGrid {
  import opened Common
  import opened Lists
  import opened Availability

  // ---------------------------------------------------------------------
  // Time text
  // ---------------------------------------------------------------------

  function Digit(n: nat): (c: char)
    requires n < 10
    ensures '0' <= c <= '9'
  {
    ('0' as int + n) as char
  }

  /** A number below 100 as two digits. */
  function Pad2(n: nat): (r: string)
    requires n < 100
    ensures |r| == 2 && ' ' !in r
  {
    [Digit(n / 10), Digit(n % 10)]
  }

  lemma Pad2Injective(a: nat, b: nat)
    requires a < 100 && b < 100 && Pad2(a) == Pad2(b)
    ensures a == b
  {
    assert Pad2(a)[0] == Pad2(b)[0] && Pad2(a)[1] == Pad2(b)[1];
  }

  /** "HH:MM", the first five characters of the time's text. */
  function HourMinute(t: ClockTime): (r: string)
    ensures |r| == 5 && ' ' !in r
  {
    Pad2(t.h) + ":" + Pad2(t.m)
  }

  /** The time as the backend sends it: "HH:MM:SS". */
  function TimeText(t: ClockTime): (r: string)
    ensures |r| == 8 && r[..5] == HourMinute(t)
  {
    HourMinute(t) + ":" + Pad2(t.s)
  }

  /** `${hora_inicio.slice(0, 5)} - ${hora_fin.slice(0, 5)}`. */
  function RangeOf(b: Block): string {
    TimeText(b.hora_inicio)[..5] + " - " + TimeText(b.hora_fin)[..5]
  }

  // ---------------------------------------------------------------------
  // String order and the row list
  // ---------------------------------------------------------------------

  /** The order of `Array.prototype.sort` on strings: character by character, a prefix first. */
  predicate Less(a: string, b: string)
    decreases |a|
  {
    if |a| == 0 then |b| > 0
    else if |b| == 0 then false
    else if a[0] != b[0] then a[0] < b[0]
    else Less(a[1..], b[1..])
  }

  lemma {:induction false} LessIrreflexive(a: string)
    ensures !Less(a, a)
    decreases |a|
  {
    if |a| > 0 {
      LessIrreflexive(a[1..]);
    }
  }

  lemma {:induction false} LessTotal(a: string, b: string)
    requires a != b
    ensures Less(a, b) || Less(b, a)
    decreases |a|
  {
    if |a| > 0 && |b| > 0 && a[0] == b[0] {
      assert a == [a[0]] + a[1..] && b == [b[0]] + b[1..];
      LessTotal(a[1..], b[1..]);
    }
  }

  lemma {:induction false} LessTransitive(a: string, b: string, c: string)
    requires Less(a, b) && Less(b, c)
    ensures Less(a, c)
    decreases |a|
  {
    if |a| > 0 && |b| > 0 && |c| > 0 && a[0] == b[0] && b[0] == c[0] {
      LessTransitive(a[1..], b[1..], c[1..]);
    }
  }

  predicate StrictlySorted(s: seq<string>) {
    forall i, j :: 0 <= i < j < |s| ==> Less(s[i], s[j])
  }

  /** `[...new Set(s)]`: first occurrences, in order. */
  function Dedupe(s: seq<string>): (r: seq<string>)
    ensures NoDup(r)
    ensures forall x :: x in r <==> x in s
  {
    if |s| == 0 then []
    else
      var d := Dedupe(s[..|s| - 1]);
      assert forall x :: x in s <==> x in s[..|s| - 1] || x == s[|s| - 1] by {
        assert s == s[..|s| - 1] + [s[|s| - 1]];
      }
      if s[|s| - 1] in d then d else d + [s[|s| - 1]]
  }

  /** Inserts a new element into a strictly sorted list. */
  function Insert(x: string, s: seq<string>): (r: seq<string>)
    requires StrictlySorted(s) && x !in s
    ensures StrictlySorted(r)
    ensures multiset(r) == multiset(s) + multiset{x}
  {
    if |s| == 0 then [x]
    else if Less(x, s[0]) then
      assert forall j :: 0 <= j < |s| ==> Less(x, s[j]) by {
        forall j | 0 < j < |s| ensures Less(x, s[j]) {
          LessTransitive(x, s[0], s[j]);
        }
      }
      ConsSorted(x, s);
      [x] + s
    else
      LessTotal(x, s[0]);
      var rest := s[1..];
      var t := Insert(x, rest);
      assert s == [s[0]] + rest;
      assert forall j :: 0 <= j < |rest| ==> Less(s[0], rest[j]) by {
        forall j | 0 <= j < |rest| ensures Less(s[0], rest[j]) {
          assert rest[j] == s[j + 1];
        }
      }
      BelowAllOf(s[0], rest, x, t);
      ConsSorted(s[0], t);
      [s[0]] + t
  }

  /** An element below every element of a strictly sorted list may go in front of it. */
  lemma ConsSorted(y: string, t: seq<string>)
    requires StrictlySorted(t) && forall k :: 0 <= k < |t| ==> Less(y, t[k])
    ensures StrictlySorted([y] + t)
  {
    var r := [y] + t;
    forall i, j | 0 <= i < j < |r| ensures Less(r[i], r[j]) {
      if i == 0 {
        assert r[j] == t[j - 1];
      } else {
        assert r[i] == t[i - 1] && r[j] == t[j - 1];
      }
    }
  }

  /** Below every element of `s` and below `x` is below every element of `s` with `x` added. */
  lemma BelowAllOf(y: string, s: seq<string>, x: string, t: seq<string>)
    requires multiset(t) == multiset(s) + multiset{x}
    requires Less(y, x) && forall j :: 0 <= j < |s| ==> Less(y, s[j])
    ensures forall k :: 0 <= k < |t| ==> Less(y, t[k])
  {
    forall k | 0 <= k < |t| ensures Less(y, t[k]) {
      assert t[k] in multiset(t);
      if t[k] != x {
        assert t[k] in multiset(s);
        var j :| 0 <= j < |s| && s[j] == t[k];
      }
    }
  }

  /** `.sort()` of a list without duplicates. */
  function Sort(s: seq<string>): (r: seq<string>)
    requires NoDup(s)
    ensures StrictlySorted(r)
    ensures multiset(r) == multiset(s)
  {
    if |s| == 0 then []
    else
      assert s == [s[0]] + s[1..];
      var t := Sort(s[1..]);
      assert s[0] !in multiset(t);
      Insert(s[0], t)
  }

  /** `horasUnicas`: the distinct block ranges, ascending. */
  function HorasUnicas(bloques: seq<Block>): (rows: seq<string>)
    ensures |bloques| == 0 ==> rows == []
    ensures StrictlySorted(rows)
    ensures forall i :: 0 <= i < |bloques| ==> RangeOf(bloques[i]) in rows
    ensures forall k :: 0 <= k < |rows| ==> exists i :: 0 <= i < |bloques| && RangeOf(bloques[i]) == rows[k]
  {
    if |bloques| == 0 then []
    else
      RowsAreTheRanges(bloques);
      Sort(Dedupe(Ranges(bloques)))
  }

  /** `bloques.map(b => range of b)`. */
  function Ranges(bloques: seq<Block>): (r: seq<string>)
    ensures |r| == |bloques|
    ensures forall i :: 0 <= i < |bloques| ==> r[i] == RangeOf(bloques[i])
  {
    if |bloques| == 0 then [] else [RangeOf(bloques[0])] + Ranges(bloques[1..])
  }

  lemma RowsAreTheRanges(bloques: seq<Block>)
    ensures forall i :: 0 <= i < |bloques| ==> RangeOf(bloques[i]) in Sort(Dedupe(Ranges(bloques)))
    ensures forall k :: 0 <= k < |Sort(Dedupe(Ranges(bloques)))| ==>
              exists i :: 0 <= i < |bloques| && RangeOf(bloques[i]) == Sort(Dedupe(Ranges(bloques)))[k]
  {
    var ranges := Ranges(bloques);
    var rows := Sort(Dedupe(ranges));
    forall x ensures x in rows <==> x in ranges {
      SortDedupeKeeps(ranges, x);
    }
    RowsOfRanges(bloques, ranges, rows);
  }

  /** Any list holding exactly the ranges has a row for every block and a block for every row. */
  lemma RowsOfRanges(bloques: seq<Block>, ranges: seq<string>, rows: seq<string>)
    requires |ranges| == |bloques| && forall i :: 0 <= i < |bloques| ==> ranges[i] == RangeOf(bloques[i])
    requires forall x :: x in rows <==> x in ranges
    ensures forall i :: 0 <= i < |bloques| ==> RangeOf(bloques[i]) in rows
    ensures forall k :: 0 <= k < |rows| ==> exists i :: 0 <= i < |bloques| && RangeOf(bloques[i]) == rows[k]
  {
    forall i | 0 <= i < |bloques| ensures RangeOf(bloques[i]) in rows {
      assert ranges[i] in ranges;
    }
    forall k | 0 <= k < |rows|
      ensures exists i :: 0 <= i < |bloques| && RangeOf(bloques[i]) == rows[k]
    {
      assert rows[k] in ranges;
      var i :| 0 <= i < |ranges| && ranges[i] == rows[k];
      assert RangeOf(bloques[i]) == rows[k];
    }
  }

  /** Deduplicating and sorting neither loses nor invents an element. */
  lemma SortDedupeKeeps(s: seq<string>, x: string)
    ensures x in Sort(Dedupe(s)) <==> x in s
  {
    var d := Dedupe(s);
    assert x in Sort(d) <==> x in multiset(Sort(d));
    assert x in d <==> x in multiset(d);
  }

  /** A strictly sorted list repeats nothing: every range is listed exactly once. */
  lemma SortedRowsAreDistinct(rows: seq<string>)
    requires StrictlySorted(rows)
    ensures NoDup(rows)
  {
    forall i, j | 0 <= i < j < |rows| ensures rows[i] != rows[j] {
      if rows[i] == rows[j] {
        LessIrreflexive(rows[i]);
      }
    }
  }

  // ---------------------------------------------------------------------
  // Cells
  // ---------------------------------------------------------------------

  /** The columns, `DIAS_SEMANA`: Monday (1) to Saturday (6). */
  const DiasSemana: seq<int> := [1, 2, 3, 4, 5, 6]

  /** The `find` condition of `obtenerBloqueEnCelda` once the range is split. */
  predicate InCell(b: Block, diaId: int, inicio: string, fin: string) {
    b.dia_semana == diaId && inicio <= TimeText(b.hora_inicio) && fin <= TimeText(b.hora_fin)
  }

  /**
   * `obtenerBloqueEnCelda(diaId, rangoHora)`: the range is split on " - "
   * (a missing second half is `undefined`, which `startsWith` reads as the
   * text "undefined"), then the first block of that day whose times start
   * with the two halves is returned.
   */
  function BloqueEnCelda(bloques: seq<Block>, diaId: int, rango: string): (r: Option<Block>)
    ensures r.None? <==> forall i :: 0 <= i < |bloques| ==>
              !InCell(bloques[i], diaId, Split(rango, " - ")[0],
                      if |Split(rango, " - ")| > 1 then Split(rango, " - ")[1] else "undefined")
    ensures r.Some? ==> r.value in bloques && r.value.dia_semana == diaId
  {
    var parts := Split(rango, " - ");
    var inicio := parts[0];
    var fin := if |parts| > 1 then parts[1] else "undefined";
    Find(bloques, b => InCell(b, diaId, inicio, fin))
  }

  /** A row label splits back into the two times it was built from. */
  lemma RangeSplits(b: Block)
    ensures Split(RangeOf(b), " - ") == [HourMinute(b.hora_inicio), HourMinute(b.hora_fin)]
  {
    var a := HourMinute(b.hora_inicio);
    var c := HourMinute(b.hora_fin);
    var s := a + " - " + c;
    assert RangeOf(b) == s;
    IndexOfAfterFreePrefix(a, " - ", c);
    assert s[..|a|] == a;
    assert s[|a| + 3..] == c;
    assert Split(s, " - ") == [a] + Split(c, " - ");
    SplitWithoutSeparator(c, " - ");
  }

  lemma HourMinuteInjective(t: ClockTime, u: ClockTime)
    requires HourMinute(t) == HourMinute(u)
    ensures t.h == u.h && t.m == u.m
  {
    assert HourMinute(t)[0] == HourMinute(u)[0] && HourMinute(t)[1] == HourMinute(u)[1];
    assert HourMinute(t)[3] == HourMinute(u)[3] && HourMinute(t)[4] == HourMinute(u)[4];
    assert Pad2(t.h) == Pad2(u.h) && Pad2(t.m) == Pad2(u.m);
    Pad2Injective(t.h, u.h);
    Pad2Injective(t.m, u.m);
  }

  /** A time starts with an "HH:MM" text exactly when that is its own hour and minute. */
  lemma StartsWithHourMinute(t: ClockTime, u: ClockTime)
    ensures HourMinute(u) <= TimeText(t) <==> t.h == u.h && t.m == u.m
  {
    if HourMinute(u) <= TimeText(t) {
      assert HourMinute(u) == TimeText(t)[..5];
      HourMinuteInjective(t, u);
    }
    if t.h == u.h && t.m == u.m {
      assert HourMinute(u) == TimeText(t)[..5];
    }
  }

  /**
   * In the row of a block's range and the column of its day, the cell finds
   * a block (the first such) of that day whose start and end match the row.
   */
  lemma CellShowsBlockOfItsRow(bloques: seq<Block>, k: nat)
    requires k < |bloques|
    ensures var r := BloqueEnCelda(bloques, bloques[k].dia_semana, RangeOf(bloques[k]));
            r.Some? && RangeOf(r.value) == RangeOf(bloques[k])
  {
    var b := bloques[k];
    RangeSplits(b);
    var inicio := HourMinute(b.hora_inicio);
    var fin := HourMinute(b.hora_fin);
    StartsWithHourMinute(b.hora_inicio, b.hora_inicio);
    StartsWithHourMinute(b.hora_fin, b.hora_fin);
    assert InCell(b, b.dia_semana, inicio, fin);
    var r := BloqueEnCelda(bloques, b.dia_semana, RangeOf(b));
    StartsWithHourMinute(r.value.hora_inicio, b.hora_inicio);
    StartsWithHourMinute(r.value.hora_fin, b.hora_fin);
    assert HourMinute(r.value.hora_inicio) == inicio;
  }

  /** Only days 1 to 6 are columns, so a block of any other day never shows. */
  lemma OtherDaysNeverShow(bloques: seq<Block>, rango: string, b: Block)
    requires b.dia_semana !in DiasSemana
    ensures forall d :: d in DiasSemana ==> BloqueEnCelda(bloques, d, rango) != Some(b)
  {
  }

  /** What a cell shows. A block cell is the only one with a click handler. */
  datatype GridCell = NotAvailable | BlockCell(id: string, selected: bool, disabled: bool)

  function CellAt(bloques: seq<Block>, sel: seq<string>, editable: bool, diaId: int, rango: string): (c: GridCell)
    ensures c.NotAvailable? <==> BloqueEnCelda(bloques, diaId, rango).None?
    ensures c.BlockCell? ==> c.id == BloqueEnCelda(bloques, diaId, rango).value.id_bloque_horario
    ensures c.BlockCell? ==> (c.selected <==> c.id in sel) && c.disabled == !editable
  {
    match BloqueEnCelda(bloques, diaId, rango)
    case None => NotAvailable
    case Some(b) => BlockCell(b.id_bloque_horario, b.id_bloque_horario in sel, !editable)
  }

  /** The id a click hands to `toggleBloque`; a disabled cell still hands it over. */
  function CellClick(c: GridCell): (id: Option<string>)
    ensures id.Some? <==> c.BlockCell?
    ensures c.BlockCell? ==> id == Some(c.id)
  {
    match c
    case NotAvailable => None
    case BlockCell(id, _, _) => Some(id)
  }

  // ---------------------------------------------------------------------
  // The progress bar
  // ---------------------------------------------------------------------

  /** `docente?.carga_minima || 0`, with no teacher loaded as None. */
  function MetaHoras(cargaMinima: Option<int>): (meta: int)
    ensures cargaMinima.Some? && cargaMinima.value != 0 ==> meta == cargaMinima.value
    ensures cargaMinima.None? || cargaMinima.value == 0 ==> meta == 0
  {
    if cargaMinima.Some? && cargaMinima.value != 0 then cargaMinima.value else 0
  }

  /** `horasOfrecidas >= metaHoras`, the rounded hours counted in tenths. */
  predicate CumpleMinimo(offeredTenths: int, meta: int) {
    offeredTenths >= meta * 10
  }

  /** The shortfall line appears when the minimum is not met and is positive. */
  predicate ShowsShortfall(offeredTenths: int, meta: int) {
    !CumpleMinimo(offeredTenths, meta) && meta > 0
  }

  /** The page warns about a shortfall exactly when saving would be refused for it. */
  lemma ShortfallMatchesSaveGuard(cargaMinima: int, offeredTenths: int, asignaturas: seq<string>)
    ensures ShowsShortfall(offeredTenths, MetaHoras(Some(cargaMinima)))
            <==> GuardarCheck(cargaMinima, offeredTenths, asignaturas) == Some(ShortHours(cargaMinima, offeredTenths))
  {
  }
}
