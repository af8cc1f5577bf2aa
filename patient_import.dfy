/** `pacientes_import` (home/views.py): the data rows of the uploaded
    worksheet, from row 2 on, are checked for the three required cells and
    upserted into the patient table by mobile number, while three counters
    and an ordered list of "Fila R: ..." messages build up; at most five of
    the messages are shown. Reading the workbook is not modelled: the rows
    come in as cell values. */
module PatientImport {
  import opened Wrappers
  import opened Strings
  import opened Models
  import opened PatientTable

  /** A cell as openpyxl's `iter_rows(values_only=True)` yields it. */
  datatype Cell = Empty | Text(s: string) | Number(n: int)

  type Row = seq<Cell>

  /** Python truthiness of a cell value: `None`, `""` and `0` are false;
      any other string, whitespace included, is true. */
  predicate Truthy(c: Cell) {
    match c
    case Empty => false
    case Text(s) => s != ""
    case Number(n) => n != 0
  }

  /** Python's `str(x)` of a cell value. */
  function CellStr(c: Cell): (r: string) {
    match c
    case Empty => "None"
    case Text(s) => s
    case Number(n) => IntToString(n)
  }

  /** The reason recorded for a row with an empty required cell. */
  const MISSING_DATA: string := "Faltan datos obligatorios"

  /** The text of the `IndexError` raised by `row[2]` on a row of fewer than
      three cells, which the generic `except` branch records. */
  const SHORT_ROW: string := "tuple index out of range"

  /** The checks that `pacientes_import` makes on one row before it writes:
      the data to upsert, or the reason for rejecting the row. */
  function ParseRow(row: Row): (r: Result<PatientData, string>)
    ensures r.Ok? <==> |row| >= 3 && Truthy(row[0]) && Truthy(row[1]) && Truthy(row[2])
    ensures r.Err? ==> (r.error == SHORT_ROW <==> |row| < 3)
    ensures r.Err? ==> (r.error == MISSING_DATA <==> |row| >= 3)
    ensures r.Ok? ==> && r.value.nombre == Trim(CellStr(row[0]))
                      && r.value.apellido == Trim(CellStr(row[1]))
                      && r.value.movil == Trim(CellStr(row[2]))
  {
    if |row| < 3 then Err(SHORT_ROW)
    else if !(Truthy(row[0]) && Truthy(row[1]) && Truthy(row[2])) then Err(MISSING_DATA)
    else Ok(PatientData(Trim(CellStr(row[0])), Trim(CellStr(row[1])), Trim(CellStr(row[2]))))
  }

  /** The fields written are stripped: they neither start nor end with
      whitespace and stripping them again changes nothing. */
  lemma ParsedFieldsAreStripped(row: Row)
    requires ParseRow(row).Ok?
    ensures var d := ParseRow(row).value;
      && Trim(d.nombre) == d.nombre && Trim(d.apellido) == d.apellido && Trim(d.movil) == d.movil
  {
    TrimIdempotent(CellStr(row[0]));
    TrimIdempotent(CellStr(row[1]));
    TrimIdempotent(CellStr(row[2]));
  }

  /** A mobile cell holding only whitespace passes the check and is written
      as the empty mobile number. */
  lemma WhitespaceMobileAccepted(nombre: string, apellido: string, movil: string)
    requires nombre != "" && apellido != "" && movil != ""
    requires forall k :: 0 <= k < |movil| ==> IsSpace(movil[k])
    ensures ParseRow([Text(nombre), Text(apellido), Text(movil)]).Ok?
    ensures ParseRow([Text(nombre), Text(apellido), Text(movil)]).value.movil == ""
  {
  }

  /** A storage failure: the text of the exception that `update_or_create`
      raises on the row with the given spreadsheet number, if it raises. The
      write is atomic, so a failed row changes nothing. */
  type Faults = nat -> Option<string>

  function NoFaults(rowNumber: nat): (r: Option<string>) {
    None
  }

  /** The fate of one row: upserted with the given data, or rejected with a
      reason (a failed check or the text of a storage exception). */
  function Verdict(row: Row, rowNumber: nat, fault: Faults): (r: Result<PatientData, string>) {
    match ParseRow(row)
    case Err(reason) => Err(reason)
    case Ok(d) => if fault(rowNumber).Some? then Err(fault(rowNumber).value) else Ok(d)
  }

  /** One entry of `errores_detalles`: the spreadsheet row and the reason. */
  datatype RowError = RowError(row: nat, reason: string)

  /** The message `f"Fila {row_idx}: {reason}"`. */
  function RenderError(e: RowError): (r: string) {
    "Fila " + NatToString(e.row) + ": " + e.reason
  }

  /** The rendered message starts with "Fila ", and the row number can be
      read back from it whatever the reason says. */
  lemma RenderErrorShowsRow(e: RowError)
    ensures var s := RenderError(e);
      && |s| > 5 && s[..5] == "Fila "
      && var parts := SplitAtFirst(s[5..], ':');
      && (forall k :: 0 <= k < |parts.0| ==> IsDigit(parts.0[k]))
      && ParseDigits(parts.0) == e.row
      && parts.1 == " " + e.reason
  {
    var digits := NatToString(e.row);
    var s := RenderError(e);
    assert s[5..] == digits + [':'] + (" " + e.reason);
    assert ':' !in digits by {
      forall k | 0 <= k < |digits| ensures digits[k] != ':' {
        assert IsDigit(digits[k]);
      }
    }
    SplitAtFirstOfJoin(digits, ':', " " + e.reason);
    NatToStringRoundTrip(e.row);
  }

  function Messages(errors: seq<RowError>): (m: seq<string>)
    ensures |m| == |errors| && forall k :: 0 <= k < |errors| ==> m[k] == RenderError(errors[k])
  {
    seq(|errors|, k requires 0 <= k < |errors| => RenderError(errors[k]))
  }

  /** The state of an import after some rows: the table, the counters
      `importados` and `actualizados`, and `errores_detalles` (whose length
      is `errores`). */
  datatype ImportOutcome = ImportOutcome(db: Db, created: nat, updated: nat, errors: seq<RowError>)

  /** One pass of the loop body, for the row with spreadsheet number
      `rowNumber`. */
  function Step(o: ImportOutcome, row: Row, rowNumber: nat, fault: Faults): (r: ImportOutcome)
    requires WellFormed(o.db)
    ensures WellFormed(r.db)
    ensures r.created + r.updated + |r.errors| == o.created + o.updated + |o.errors| + 1
    ensures Verdict(row, rowNumber, fault).Ok? ==>
      var d := Verdict(row, rowNumber, fault).value;
      && r.errors == o.errors
      && r.db == Upsert(o.db, d).db
      && (r.created == o.created + 1 && r.updated == o.updated <==> d.movil !in Keys(o.db.patients))
      && (r.updated == o.updated + 1 && r.created == o.created <==> d.movil in Keys(o.db.patients))
    ensures Verdict(row, rowNumber, fault).Err? ==>
      r == o.(errors := o.errors + [RowError(rowNumber, Verdict(row, rowNumber, fault).error)])
  {
    match Verdict(row, rowNumber, fault)
    case Err(reason) => o.(errors := o.errors + [RowError(rowNumber, reason)])
    case Ok(d) =>
      var u := Upsert(o.db, d);
      ImportOutcome(u.db, o.created + (if u.created then 1 else 0), o.updated + (if u.created then 0 else 1), o.errors)
  }

  /** The whole loop over the data rows; `rows[k]` is spreadsheet row k + 2.
      Every row increments exactly one of the three counters, and the
      messages are those of the rejected rows, whatever the table held. */
  function ImportRows(db: Db, rows: seq<Row>, fault: Faults): (o: ImportOutcome)
    requires WellFormed(db)
    ensures WellFormed(o.db)
    ensures o.created + o.updated + |o.errors| == |rows|
    ensures o.errors == RowErrors(rows, fault)
    decreases |rows|
  {
    if rows == [] then ImportOutcome(db, 0, 0, [])
    else
      var n := |rows|;
      var prev := ImportRows(db, rows[..n - 1], fault);
      Step(prev, rows[n - 1], n + 1, fault)
  }

  /** The rejected rows, each with its spreadsheet number and reason, in row
      order: a reference for `errores_detalles` that does not involve the
      table. */
  function RowErrors(rows: seq<Row>, fault: Faults): (r: seq<RowError>)
    decreases |rows|
  {
    if rows == [] then []
    else
      var n := |rows|;
      RowErrors(rows[..n - 1], fault)
        + match Verdict(rows[n - 1], n + 1, fault) case Err(reason) => [RowError(n + 1, reason)] case Ok(_) => []
  }

  /** Rows numbered from `first` to `last`, strictly increasing. */
  predicate RowsAscending(errors: seq<RowError>, first: nat, last: nat) {
    && (forall k :: 0 <= k < |errors| ==> first <= errors[k].row <= last)
    && (forall j, k :: 0 <= j < k < |errors| ==> errors[j].row < errors[k].row)
  }

  /** The messages carry spreadsheet row numbers (the first data row is row
      2) and come in row order. */
  lemma {:induction false} ErrorRowsInOrder(rows: seq<Row>, fault: Faults)
    ensures RowsAscending(RowErrors(rows, fault), 2, |rows| + 1)
    decreases |rows|
  {
    if rows != [] {
      var n := |rows|;
      ErrorRowsInOrder(rows[..n - 1], fault);
      var prev := RowErrors(rows[..n - 1], fault);
      var errors := RowErrors(rows, fault);
      if errors != prev {
        var e := RowError(n + 1, Verdict(rows[n - 1], n + 1, fault).error);
        assert errors == prev + [e];
        forall j, k | 0 <= j < k < |errors| ensures errors[j].row < errors[k].row {
          assert errors[j] == prev[j];
          if k < |prev| {
            assert errors[k] == prev[k];
          }
        }
      }
    }
  }

  /** No row is ever removed, and each creation adds one row. */
  lemma {:induction false} ImportGrowsTable(db: Db, rows: seq<Row>, fault: Faults)
    requires WellFormed(db)
    ensures var o := ImportRows(db, rows, fault);
      && Keys(db.patients) <= Keys(o.db.patients)
      && |o.db.patients| == |db.patients| + o.created
    decreases |rows|
  {
    if rows != [] {
      ImportGrowsTable(db, rows[..|rows| - 1], fault);
    }
  }

  /** `update_or_create` applied to each record in turn. */
  function UpsertAll(db: Db, ds: seq<PatientData>): (r: Db)
    requires WellFormed(db)
    ensures WellFormed(r)
    decreases |ds|
  {
    if ds == [] then db else Upsert(UpsertAll(db, ds[..|ds| - 1]), ds[|ds| - 1]).db
  }

  /** The data of the rows that pass the checks and are written, in row
      order. */
  function Accepted(rows: seq<Row>, fault: Faults): (ds: seq<PatientData>)
    ensures |ds| <= |rows|
    decreases |rows|
  {
    if rows == [] then []
    else
      var n := |rows|;
      Accepted(rows[..n - 1], fault)
        + match Verdict(rows[n - 1], n + 1, fault) case Ok(d) => [d] case Err(_) => []
  }

  /** Rejected rows leave no trace in the table: the import writes exactly
      the accepted rows, in order, and counts each of them as new or
      updated. */
  lemma {:induction false} ImportWritesAcceptedRows(db: Db, rows: seq<Row>, fault: Faults)
    requires WellFormed(db)
    ensures ImportRows(db, rows, fault).db == UpsertAll(db, Accepted(rows, fault))
    ensures ImportRows(db, rows, fault).created + ImportRows(db, rows, fault).updated == |Accepted(rows, fault)|
    decreases |rows|
  {
    if rows != [] {
      var n := |rows|;
      ImportWritesAcceptedRows(db, rows[..n - 1], fault);
      AcceptedLastRow(db, rows, fault);
    }
  }

  /** The step from `rows[..n - 1]` to `rows` in `ImportWritesAcceptedRows`. */
  lemma AcceptedLastRow(db: Db, rows: seq<Row>, fault: Faults)
    requires WellFormed(db) && rows != []
    requires var prev := ImportRows(db, rows[..|rows| - 1], fault);
      prev.db == UpsertAll(db, Accepted(rows[..|rows| - 1], fault))
    ensures var prev := ImportRows(db, rows[..|rows| - 1], fault);
      var o := ImportRows(db, rows, fault);
      && o.db == UpsertAll(db, Accepted(rows, fault))
      && o.created + o.updated == prev.created + prev.updated + |Accepted(rows, fault)| - |Accepted(rows[..|rows| - 1], fault)|
  {
    var n := |rows|;
    var acc := Accepted(rows[..n - 1], fault);
    var prev := ImportRows(db, rows[..n - 1], fault);
    var o := ImportRows(db, rows, fault);
    assert o == Step(prev, rows[n - 1], n + 1, fault);
    match Verdict(rows[n - 1], n + 1, fault)
    case Ok(d) =>
      assert Accepted(rows, fault) == acc + [d];
      assert (acc + [d])[..|acc|] == acc;
      assert o.db == Upsert(prev.db, d).db;
    case Err(_) =>
      assert Accepted(rows, fault) == acc;
      assert o.db == prev.db;
  }

  /** `errores_detalles` lists exactly the rejected rows: every entry is
      the spreadsheet number and reason of a rejected row, and every
      rejected row has its entry. */
  lemma {:induction false} ErrorsAreRejectedRows(rows: seq<Row>, fault: Faults)
    ensures forall e :: e in RowErrors(rows, fault) ==>
      2 <= e.row <= |rows| + 1 && Verdict(rows[e.row - 2], e.row, fault) == Err(e.reason)
    ensures forall k :: 0 <= k < |rows| && Verdict(rows[k], k + 2, fault).Err? ==>
      RowError(k + 2, Verdict(rows[k], k + 2, fault).error) in RowErrors(rows, fault)
    decreases |rows|
  {
    if rows != [] {
      var n := |rows|;
      var init := rows[..n - 1];
      ErrorsAreRejectedRows(init, fault);
      var prev := RowErrors(init, fault);
      var errors := RowErrors(rows, fault);
      var v := Verdict(rows[n - 1], n + 1, fault);
      assert v.Err? ==> errors == prev + [RowError(n + 1, v.error)];
      assert v.Ok? ==> errors == prev;
      forall e | e in errors
        ensures 2 <= e.row <= n + 1 && Verdict(rows[e.row - 2], e.row, fault) == Err(e.reason)
      {
        if e in prev {
          assert rows[e.row - 2] == init[e.row - 2];
        }
      }
      forall k | 0 <= k < n && Verdict(rows[k], k + 2, fault).Err?
        ensures RowError(k + 2, Verdict(rows[k], k + 2, fault).error) in errors
      {
        if k < n - 1 {
          assert rows[k] == init[k];
        }
      }
    }
  }

  /** A row with three or more cells and an empty required one is counted
      as an error with reason "Faltan datos obligatorios" under its own row
      number, and leaves the table and the other counters as they were. */
  lemma MissingDataRow(o: ImportOutcome, row: Row, rowNumber: nat, fault: Faults)
    requires WellFormed(o.db)
    requires |row| >= 3 && !(Truthy(row[0]) && Truthy(row[1]) && Truthy(row[2]))
    ensures Step(o, row, rowNumber, fault) == o.(errors := o.errors + [RowError(rowNumber, MISSING_DATA)])
  {
  }

  /** Every row of `db` with mobile number `m` is active. */
  predicate ActiveFor(db: Db, m: string) {
    forall i :: 0 <= i < |db.patients| && db.patients[i].movil == m ==> db.patients[i].activo
  }

  /** Every row that is written leaves its patient active: an import
      reactivates a deactivated patient. */
  lemma AcceptedRowsAreActive(db: Db, rows: seq<Row>, fault: Faults)
    requires WellFormed(db)
    ensures forall d :: d in Accepted(rows, fault) ==> ActiveFor(ImportRows(db, rows, fault).db, d.movil)
  {
    ImportWritesAcceptedRows(db, rows, fault);
    UpsertAllActivates(db, Accepted(rows, fault));
  }

  /** An upsert activates its own mobile number and leaves the rows of the
      others as they were. */
  lemma UpsertKeepsActive(db: Db, d: PatientData, m: string)
    requires WellFormed(db)
    requires m == d.movil || ActiveFor(db, m)
    ensures ActiveFor(Upsert(db, d).db, m)
  {
  }

  lemma {:induction false} UpsertAllActivates(db: Db, ds: seq<PatientData>)
    requires WellFormed(db)
    ensures forall d :: d in ds ==> ActiveFor(UpsertAll(db, ds), d.movil)
    decreases |ds|
  {
    if ds != [] {
      var init := ds[..|ds| - 1];
      var last := ds[|ds| - 1];
      UpsertAllActivates(db, init);
      var prev := UpsertAll(db, init);
      assert ds == init + [last];
      forall d | d in ds ensures ActiveFor(UpsertAll(db, ds), d.movil) {
        UpsertKeepsActive(prev, last, d.movil);
      }
    }
  }

  // ----------------------------------------------------- displayed messages

  /** How many detail messages are shown. */
  const MAX_SHOWN: nat := 5

  /** The trailer `f"... y {n} errores más"`. */
  function MoreErrors(n: nat): (r: string) {
    "... y " + NatToString(n) + " errores más"
  }

  /** The detail lines shown: the first five messages, then a trailer with
      the number of the others when there are more than five. */
  function Display(detalles: seq<string>): (shown: seq<string>)
    ensures var n := if |detalles| < MAX_SHOWN then |detalles| else MAX_SHOWN;
      && |shown| == n + (if |detalles| > MAX_SHOWN then 1 else 0)
      && shown[..n] == detalles[..n]
    ensures |detalles| > MAX_SHOWN <==> |shown| > MAX_SHOWN
    ensures |detalles| > MAX_SHOWN ==> shown[MAX_SHOWN] == MoreErrors(|detalles| - MAX_SHOWN)
  {
    if |detalles| <= MAX_SHOWN then detalles
    else detalles[..MAX_SHOWN] + [MoreErrors(|detalles| - MAX_SHOWN)]
  }

  /** The trailer's count gives back the number of messages not shown. */
  lemma MoreErrorsCounts(n: nat)
    ensures var t := MoreErrors(n);
      && |t| > 6 && t[..6] == "... y "
      && var parts := SplitAtFirst(t[6..], ' ');
      && (forall k :: 0 <= k < |parts.0| ==> IsDigit(parts.0[k]))
      && ParseDigits(parts.0) == n
  {
    var digits := NatToString(n);
    var rest := " errores más";
    var t := MoreErrors(n);
    assert t == "... y " + (digits + rest);
    assert t[6..] == digits + [' '] + rest[1..];
    assert ' ' !in digits by {
      forall k | 0 <= k < |digits| ensures digits[k] != ' ' {
        assert IsDigit(digits[k]);
      }
    }
    SplitAtFirstOfJoin(digits, ' ', rest[1..]);
    NatToStringRoundTrip(n);
  }

  /** The success message `f"✓ Importación completada: ..."`. */
  function Summary(importados: nat, actualizados: nat, errores: nat): (r: string) {
    "✓ Importación completada: " + NatToString(importados) + " nuevos, " + NatToString(actualizados)
      + " actualizados, " + NatToString(errores) + " errores"
  }

  /** A count followed by a space is read back unambiguously. */
  lemma CountThenSpace(n: nat, m: nat, rest1: string, rest2: string)
    requires NatToString(n) + [' '] + rest1 == NatToString(m) + [' '] + rest2
    ensures n == m && rest1 == rest2
  {
    forall x: nat ensures ' ' !in NatToString(x) {
      var d := NatToString(x);
      forall k | 0 <= k < |d| ensures d[k] != ' ' {
        assert IsDigit(d[k]);
      }
    }
    SplitAtFirstOfJoin(NatToString(n), ' ', rest1);
    SplitAtFirstOfJoin(NatToString(m), ' ', rest2);
    NatToStringRoundTrip(n);
    NatToStringRoundTrip(m);
  }

  /** Regrouping the summary around the spaces that end each count. */
  lemma SummaryRegroup(importados: nat, actualizados: nat, errores: nat)
    ensures Summary(importados, actualizados, errores)
      == "✓ Importación completada: " + (NatToString(importados) + [' '] + ("nuevos, "
         + (NatToString(actualizados) + [' '] + ("actualizados, "
         + (NatToString(errores) + [' '] + "errores")))))
  {
    var h, i, a, e := "✓ Importación completada: ", NatToString(importados), NatToString(actualizados), NatToString(errores);
    assert " nuevos, " == [' '] + "nuevos, ";
    assert " actualizados, " == [' '] + "actualizados, ";
    assert " errores" == [' '] + "errores";
    SeqRegroup(h, i, "nuevos, ", a, "actualizados, ", e, "errores", ' ');
  }

  lemma SeqRegroup<T>(h: seq<T>, i: seq<T>, n: seq<T>, a: seq<T>, u: seq<T>, e: seq<T>, t: seq<T>, sp: T)
    ensures h + i + ([sp] + n) + a + ([sp] + u) + e + ([sp] + t)
      == h + (i + [sp] + (n + (a + [sp] + (u + (e + [sp] + t)))))
  {
  }

  /** The summary line determines the three counters it reports. */
  lemma SummaryInjective(importados: nat, actualizados: nat, errores: nat,
                         importados': nat, actualizados': nat, errores': nat)
    requires Summary(importados, actualizados, errores) == Summary(importados', actualizados', errores')
    ensures importados == importados' && actualizados == actualizados' && errores == errores'
  {
    var head := "✓ Importación completada: ";
    var e1 := NatToString(errores) + [' '] + "errores";
    var e2 := NatToString(errores') + [' '] + "errores";
    var u1 := NatToString(actualizados) + [' '] + ("actualizados, " + e1);
    var u2 := NatToString(actualizados') + [' '] + ("actualizados, " + e2);
    var i1 := NatToString(importados) + [' '] + ("nuevos, " + u1);
    var i2 := NatToString(importados') + [' '] + ("nuevos, " + u2);
    SummaryRegroup(importados, actualizados, errores);
    SummaryRegroup(importados', actualizados', errores');
    assert i1 == (head + i1)[|head|..];
    assert i2 == (head + i2)[|head|..];
    CountThenSpace(importados, importados', "nuevos, " + u1, "nuevos, " + u2);
    assert u1 == ("nuevos, " + u1)[8..];
    assert u2 == ("nuevos, " + u2)[8..];
    CountThenSpace(actualizados, actualizados', "actualizados, " + e1, "actualizados, " + e2);
    assert e1 == ("actualizados, " + e1)[14..];
    assert e2 == ("actualizados, " + e2)[14..];
    CountThenSpace(errores, errores', "errores", "errores");
  }

  // ------------------------------------------------------------ the view

  /** One more row is one more step. */
  lemma ImportRowsStep(db: Db, rows: seq<Row>, i: nat, fault: Faults)
    requires WellFormed(db) && i < |rows|
    ensures ImportRows(db, rows[..i + 1], fault) == Step(ImportRows(db, rows[..i], fault), rows[i], i + 2, fault)
  {
    assert rows[..i + 1][..i] == rows[..i];
  }

  lemma MessagesAppend(errors: seq<RowError>, e: RowError)
    ensures Messages(errors + [e]) == Messages(errors) + [RenderError(e)]
  {
  }

  /** What one row did: created a patient, updated one, or was rejected
      with the given message. */
  datatype RowFate = Created | Updated | Rejected(message: string)

  /** One pass of the body of the loop of `pacientes_import`: the checks,
      then `update_or_create` on `t`. A rejected row leaves `t` as it was and
      returns its "Fila R: ..." message. */
  method ImportRow(t: Table, row: Row, rowIdx: nat, fault: Faults) returns (fate: RowFate)
    requires t.Valid()
    modifies t
    ensures t.Valid()
    ensures var v := Verdict(row, rowIdx, fault);
      && (v.Err? ==> fate == Rejected(RenderError(RowError(rowIdx, v.error))) && t.State() == old(t.State()))
      && (v.Ok? ==> var u := Upsert(old(t.State()), v.value);
                    t.State() == u.db && fate == (if u.created then Created else Updated))
  {
    if |row| < 3 {
      return Rejected(RenderError(RowError(rowIdx, SHORT_ROW)));
    }
    var nombre, apellido, movil := row[0], row[1], row[2];
    if !(Truthy(nombre) && Truthy(apellido) && Truthy(movil)) {
      return Rejected(RenderError(RowError(rowIdx, MISSING_DATA)));
    }
    var m := Trim(CellStr(movil));
    var failure := fault(rowIdx);
    if failure.Some? {
      return Rejected(RenderError(RowError(rowIdx, failure.value)));
    }
    var created := t.UpdateOrCreate(PatientData(Trim(CellStr(nombre)), Trim(CellStr(apellido)), m));
    fate := if created then Created else Updated;
  }

  /** The loop of `pacientes_import` over the data rows, writing into `t`. */
  method ImportWorksheet(t: Table, rows: seq<Row>, fault: Faults)
    returns (importados: nat, actualizados: nat, errores: nat, detalles: seq<string>)
    requires t.Valid()
    modifies t
    ensures t.Valid()
    ensures var o := ImportRows(old(t.State()), rows, fault);
      && t.State() == o.db
      && importados == o.created && actualizados == o.updated && errores == |o.errors|
      && detalles == Messages(o.errors)
  {
    ghost var start := t.State();
    ghost var o := ImportOutcome(start, 0, 0, []);
    importados, actualizados, errores, detalles := 0, 0, 0, [];
    for i := 0 to |rows|
      invariant o == ImportRows(start, rows[..i], fault)
      invariant t.Valid() && t.State() == o.db
      invariant importados == o.created && actualizados == o.updated && errores == |o.errors|
      invariant detalles == Messages(o.errors)
    {
      ImportRowsStep(start, rows, i, fault);
      ghost var prev := o;
      o := Step(prev, rows[i], i + 2, fault);
      var fate := ImportRow(t, rows[i], i + 2, fault);
      match fate
      case Created =>
        importados := importados + 1;
      case Updated =>
        actualizados := actualizados + 1;
      case Rejected(message) =>
        MessagesAppend(prev.errors, RowError(i + 2, Verdict(rows[i], i + 2, fault).error));
        errores := errores + 1;
        detalles := detalles + [message];
    }
    assert rows[..|rows|] == rows;
  }

  /** `pacientes_import` once the workbook is read: imports the rows and
      returns the messages it shows, the summary first. */
  method PacientesImport(t: Table, rows: seq<Row>, fault: Faults) returns (mensajes: seq<string>)
    requires t.Valid()
    modifies t
    ensures t.Valid()
    ensures var o := ImportRows(old(t.State()), rows, fault);
      && t.State() == o.db
      && mensajes == [Summary(o.created, o.updated, |o.errors|)] + Display(Messages(o.errors))
  {
    var importados, actualizados, errores, detalles := ImportWorksheet(t, rows, fault);
    mensajes := [Summary(importados, actualizados, errores)] + Display(detalles);
  }
}
