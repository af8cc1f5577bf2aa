/** Re-importing a worksheet into the table it produced: after a first
    import with no failed write nothing is created, and when no write fails
    in either import the table comes out as it went in.
    The proof characterises `update_or_create` applied to a batch of
    records row by row, through `Final`, the effect of the whole batch on
    one existing row. */
module ImportIdempotence {
  import opened Wrappers
  import opened Models
  import opened PatientTable
  import opened PatientImport

  /** The mobile numbers of a batch of records. */
  function Movils(ds: seq<PatientData>): (r: set<string>)
    ensures forall i :: 0 <= i < |ds| ==> ds[i].movil in r
    decreases |ds|
  {
    if ds == [] then {} else Movils(ds[..|ds| - 1]) + {ds[|ds| - 1].movil}
  }

  /** The mobile numbers of the rows that pass the checks of `ParseRow`,
      whether or not their write then fails. */
  function ParsedMovils(rows: seq<Row>): (r: set<string>)
    decreases |rows|
  {
    if rows == [] then {}
    else
      var n := |rows|;
      ParsedMovils(rows[..n - 1]) + match ParseRow(rows[n - 1]) case Ok(d) => {d.movil} case Err(_) => {}
  }

  /** The records of a batch applied in turn to one existing row. */
  function Final(p: Paciente, ds: seq<PatientData>): (r: Paciente)
    decreases |ds|
  {
    if ds == [] then p else Refresh(Final(p, ds[..|ds| - 1]), ds[|ds| - 1])
  }

  // ------------------------------------------------------------- Final

  /** A batch never changes a row's key or mobile number, and a row whose
      mobile number it does not mention is left as it is. */
  lemma {:induction false} FinalKeepsIdentity(p: Paciente, ds: seq<PatientData>)
    ensures Final(p, ds).pk == p.pk && Final(p, ds).movil == p.movil
    ensures p.movil !in Movils(ds) ==> Final(p, ds) == p
    decreases |ds|
  {
    if ds != [] {
      FinalKeepsIdentity(p, ds[..|ds| - 1]);
    }
  }

  /** When the batch mentions the row's mobile number, the outcome depends
      only on the row's key and mobile number. */
  lemma {:induction false} FinalForgetsFields(p: Paciente, q: Paciente, ds: seq<PatientData>)
    requires p.pk == q.pk && p.movil == q.movil && p.movil in Movils(ds)
    ensures Final(p, ds) == Final(q, ds)
    decreases |ds|
  {
    var init := ds[..|ds| - 1];
    var last := ds[|ds| - 1];
    FinalKeepsIdentity(p, init);
    FinalKeepsIdentity(q, init);
    if p.movil != last.movil {
      FinalForgetsFields(p, q, init);
    }
  }

  /** Applying a batch twice to a row is applying it once. */
  lemma FinalIdempotent(p: Paciente, ds: seq<PatientData>)
    ensures Final(Final(p, ds), ds) == Final(p, ds)
  {
    FinalKeepsIdentity(p, ds);
    if p.movil in Movils(ds) {
      FinalForgetsFields(Final(p, ds), p, ds);
    }
  }

  // --------------------------------------------------------- UpsertAll

  /** A batch adds its mobile numbers to the table, and every row that was
      there keeps its place and receives `Final`. */
  lemma {:induction false} UpsertAllExisting(db: Db, ds: seq<PatientData>)
    requires WellFormed(db)
    ensures var r := UpsertAll(db, ds);
      && Keys(r.patients) == Keys(db.patients) + Movils(ds)
      && |db.patients| <= |r.patients|
      && forall i :: 0 <= i < |db.patients| ==> r.patients[i] == Final(db.patients[i], ds)
    decreases |ds|
  {
    if ds != [] {
      var init := ds[..|ds| - 1];
      var last := ds[|ds| - 1];
      UpsertAllExisting(db, init);
      var prev := UpsertAll(db, init);
      UpsertEffect(prev, last);
    }
  }

  /** The rows a batch appends carry one of its mobile numbers and are
      already settled: applying the batch to them changes nothing. */
  lemma {:induction false} UpsertAllAppended(db: Db, ds: seq<PatientData>)
    requires WellFormed(db)
    ensures var r := UpsertAll(db, ds);
      forall i :: |db.patients| <= i < |r.patients| ==>
        r.patients[i].movil in Movils(ds) && Final(r.patients[i], ds) == r.patients[i]
    decreases |ds|
  {
    if ds != [] {
      var init := ds[..|ds| - 1];
      var last := ds[|ds| - 1];
      UpsertAllAppended(db, init);
      UpsertAllExisting(db, init);
      var prev := UpsertAll(db, init);
      var r := UpsertAll(db, ds);
      UpsertEffect(prev, last);
      forall i | |db.patients| <= i < |r.patients|
        ensures r.patients[i].movil in Movils(ds) && Final(r.patients[i], ds) == r.patients[i]
      {
        var q := r.patients[i];
        FinalKeepsIdentity(q, init);
        if i < |prev.patients| {
          var p := prev.patients[i];
          assert q == Refresh(p, last);
          FinalForgetsFields(q, p, init);
        } else {
          assert q == NewPaciente(prev.nextPk, last.nombre, last.apellido, last.movil);
        }
      }
    }
  }

  /** A batch whose mobile numbers are all in the table creates nothing. */
  lemma {:induction false} UpsertAllKnownKeys(db: Db, ds: seq<PatientData>)
    requires WellFormed(db) && Movils(ds) <= Keys(db.patients)
    ensures |UpsertAll(db, ds).patients| == |db.patients| && UpsertAll(db, ds).nextPk == db.nextPk
    decreases |ds|
  {
    if ds != [] {
      var init := ds[..|ds| - 1];
      UpsertAllKnownKeys(db, init);
      UpsertAllExisting(db, init);
    }
  }

  /** Applying the same batch twice leaves the table as applying it once. */
  lemma UpsertAllIdempotent(db: Db, ds: seq<PatientData>)
    requires WellFormed(db)
    ensures UpsertAll(UpsertAll(db, ds), ds) == UpsertAll(db, ds)
  {
    var r := UpsertAll(db, ds);
    var r2 := UpsertAll(r, ds);
    UpsertAllExisting(db, ds);
    UpsertAllAppended(db, ds);
    UpsertAllExisting(r, ds);
    UpsertAllKnownKeys(r, ds);
    forall i | 0 <= i < |r.patients| ensures r2.patients[i] == r.patients[i] {
      if i < |db.patients| {
        FinalIdempotent(db.patients[i], ds);
      }
    }
    assert r2.patients == r.patients;
  }

  // ---------------------------------------------------------- re-import

  lemma MovilsSnoc(ds: seq<PatientData>, d: PatientData)
    ensures Movils(ds + [d]) == Movils(ds) + {d.movil}
  {
  }

  /** The rows written are among the rows that pass the checks. */
  lemma {:induction false} AcceptedMovilsParsed(rows: seq<Row>, fault: Faults)
    ensures Movils(Accepted(rows, fault)) <= ParsedMovils(rows)
    decreases |rows|
  {
    if rows != [] {
      var n := |rows|;
      AcceptedMovilsParsed(rows[..n - 1], fault);
      var acc := Accepted(rows[..n - 1], fault);
      var parsed := ParsedMovils(rows[..n - 1]);
      assert parsed <= ParsedMovils(rows);
      var v := Verdict(rows[n - 1], n + 1, fault);
      if v.Ok? {
        assert ParseRow(rows[n - 1]) == Ok(v.value);
        assert ParsedMovils(rows) == parsed + {v.value.movil};
        assert Accepted(rows, fault) == acc + [v.value];
        MovilsSnoc(acc, v.value);
      } else {
        assert Accepted(rows, fault) == acc;
      }
    }
  }

  /** With no storage failure, every row that passes the checks is
      written. */
  lemma {:induction false} AcceptedMovilsNoFaults(rows: seq<Row>)
    ensures Movils(Accepted(rows, NoFaults)) == ParsedMovils(rows)
    decreases |rows|
  {
    if rows != [] {
      var n := |rows|;
      AcceptedMovilsNoFaults(rows[..n - 1]);
      var acc := Accepted(rows[..n - 1], NoFaults);
      var parsed := ParsedMovils(rows[..n - 1]);
      var v := Verdict(rows[n - 1], n + 1, NoFaults);
      if v.Ok? {
        assert ParseRow(rows[n - 1]) == Ok(v.value);
        assert ParsedMovils(rows) == parsed + {v.value.movil};
        assert Accepted(rows, NoFaults) == acc + [v.value];
        MovilsSnoc(acc, v.value);
      } else {
        assert ParseRow(rows[n - 1]).Err?;
        assert ParsedMovils(rows) == parsed;
        assert Accepted(rows, NoFaults) == acc;
      }
    }
  }

  /** An import into a table that already has every mobile number the rows
      carry creates nothing: each written row counts as updated. */
  lemma {:induction false} KnownRowsCreateNothing(db: Db, rows: seq<Row>, fault: Faults)
    requires WellFormed(db) && ParsedMovils(rows) <= Keys(db.patients)
    ensures ImportRows(db, rows, fault).created == 0
    decreases |rows|
  {
    if rows != [] {
      var n := |rows|;
      KnownRowsCreateNothing(db, rows[..n - 1], fault);
      ImportGrowsTable(db, rows[..n - 1], fault);
    }
  }

  /** After a first import with no failed write, importing the worksheet a
      second time reports 0 new patients, whatever fails the second time. */
  lemma ReimportCreatesNothing(db: Db, rows: seq<Row>, fault: Faults)
    requires WellFormed(db)
    ensures ImportRows(ImportRows(db, rows, NoFaults).db, rows, fault).created == 0
  {
    var o1 := ImportRows(db, rows, NoFaults);
    ImportWritesAcceptedRows(db, rows, NoFaults);
    UpsertAllExisting(db, Accepted(rows, NoFaults));
    AcceptedMovilsNoFaults(rows);
    KnownRowsCreateNothing(o1.db, rows, fault);
  }

  /** With no storage failure, a re-import leaves the table as the first
      import left it, counts every written row as updated, and reports the
      same rejected rows. */
  lemma ReimportIdempotent(db: Db, rows: seq<Row>)
    requires WellFormed(db)
    ensures var o1 := ImportRows(db, rows, NoFaults);
      var o2 := ImportRows(o1.db, rows, NoFaults);
      && o2.db == o1.db
      && o2.created == 0
      && o2.updated == o1.created + o1.updated
      && o2.errors == o1.errors
  {
    var o1 := ImportRows(db, rows, NoFaults);
    var acc := Accepted(rows, NoFaults);
    ImportWritesAcceptedRows(db, rows, NoFaults);
    ImportWritesAcceptedRows(o1.db, rows, NoFaults);
    UpsertAllIdempotent(db, acc);
    ReimportCreatesNothing(db, rows, NoFaults);
  }

  // ------------------------------------------------ repeats in one batch

  /** The mobile numbers in the table once the first `i` rows are in. */
  function KeysAfter(db: Db, rows: seq<Row>, fault: Faults, i: nat): (r: set<string>)
    requires WellFormed(db) && i <= |rows|
  {
    Keys(ImportRows(db, rows[..i], fault).db.patients)
  }

  /** One row never removes a mobile number. */
  lemma KeysAfterStep(db: Db, rows: seq<Row>, fault: Faults, i: nat)
    requires WellFormed(db) && i < |rows|
    ensures KeysAfter(db, rows, fault, i) <= KeysAfter(db, rows, fault, i + 1)
  {
    ImportRowsStep(db, rows, i, fault);
  }

  /** The mobile numbers in the table only grow as the rows go by. */
  lemma {:induction false} KeysGrowAlongRows(db: Db, rows: seq<Row>, fault: Faults, a: nat, b: nat)
    requires WellFormed(db) && a <= b <= |rows|
    ensures KeysAfter(db, rows, fault, a) <= KeysAfter(db, rows, fault, b)
    decreases b - a
  {
    if a < b {
      KeysGrowAlongRows(db, rows, fault, a, b - 1);
      KeysAfterStep(db, rows, fault, b - 1);
    }
  }

  /** A mobile number that a batch repeats counts as updated the second
      time. */
  lemma RepeatedMobileCountsUpdated(db: Db, rows: seq<Row>, fault: Faults, j: nat, k: nat)
    requires WellFormed(db) && j < k < |rows|
    requires Verdict(rows[j], j + 2, fault).Ok? && Verdict(rows[k], k + 2, fault).Ok?
    requires Verdict(rows[j], j + 2, fault).value.movil == Verdict(rows[k], k + 2, fault).value.movil
    ensures var before := ImportRows(db, rows[..k], fault);
      var after := ImportRows(db, rows[..k + 1], fault);
      after.updated == before.updated + 1 && after.created == before.created
  {
    ImportRowsStep(db, rows, j, fault);
    KeysGrowAlongRows(db, rows, fault, j + 1, k);
    ImportRowsStep(db, rows, k, fault);
  }

  // ------------------------------------------------------------ example

  /** One complete row on an empty table: 1 new, 0 updated, 0 errors; the
      same file again: 0 new, 1 updated, 0 errors. */
  lemma SingleRowExample()
    ensures var rows := [[Text("Juan"), Text("Pérez"), Text("+593991234567")]];
      var o1 := ImportRows(Db([], 1), rows, NoFaults);
      var o2 := ImportRows(o1.db, rows, NoFaults);
      && o1.created == 1 && o1.updated == 0 && o1.errors == []
      && o2.created == 0 && o2.updated == 1 && o2.errors == []
  {
  }
}
