/** The `Paciente` table as the views of home/views.py use it: Django's
    `update_or_create` keyed by the mobile number, `get(pk=...)`, and the
    activation toggle of `paciente_toggle`. The table is a value (`Db`) for
    the specification functions and a class (`Table`) whose methods update it in
    place. */
module PatientTable {
  import opened Wrappers
  import opened Models

  /** The rows of the table in primary-key order, and the next primary key
      the auto-increment column hands out. */
  datatype Db = Db(patients: seq<Paciente>, nextPk: nat)

  /** Primary keys increase along the table and stay below `nextPk`. */
  predicate PksIncreasing(ps: seq<Paciente>, nextPk: nat) {
    && (forall i, j :: 0 <= i < j < |ps| ==> ps[i].pk < ps[j].pk)
    && (forall i :: 0 <= i < |ps| ==> ps[i].pk < nextPk)
  }

  /** The database's constraints: unique mobile numbers and unique,
      increasing primary keys. */
  predicate WellFormed(db: Db) {
    UniqueMovil(db.patients) && PksIncreasing(db.patients, db.nextPk)
  }

  /** The mobile numbers present in the table. */
  function Keys(ps: seq<Paciente>): (r: set<string>) {
    set i | 0 <= i < |ps| :: ps[i].movil
  }

  /** `Paciente.objects.get(movil=m)`: the position of the row with that
      mobile number, if any. */
  function FindMovil(ps: seq<Paciente>, m: string): (r: Option<nat>)
    ensures r.Some? ==> r.value < |ps| && ps[r.value].movil == m
    ensures r.None? <==> m !in Keys(ps)
  {
    if ps == [] then None
    else if ps[|ps| - 1].movil == m then Some(|ps| - 1)
    else
      var r := FindMovil(ps[..|ps| - 1], m);
      assert Keys(ps) == Keys(ps[..|ps| - 1]) + {ps[|ps| - 1].movil};
      r
  }

  /** `Paciente.objects.get(pk=k)`: the position of the row with that
      primary key, if any. */
  function FindPk(ps: seq<Paciente>, k: nat): (r: Option<nat>)
    ensures r.Some? ==> r.value < |ps| && ps[r.value].pk == k
    ensures r.None? <==> forall i :: 0 <= i < |ps| ==> ps[i].pk != k
  {
    if ps == [] then None
    else if ps[|ps| - 1].pk == k then Some(|ps| - 1)
    else FindPk(ps[..|ps| - 1], k)
  }

  /** The lookup value and the defaults that `pacientes_import` passes to
      `update_or_create`: names and mobile number, already stripped. */
  datatype PatientData = PatientData(nombre: string, apellido: string, movil: string)

  /** What `update_or_create` does to one row: the row with the looked-up
      mobile number gets the defaults (both names, `activo = True`); every
      other row is left as it is. */
  function Refresh(p: Paciente, d: PatientData): (r: Paciente) {
    if p.movil == d.movil then p.(nombre := d.nombre, apellido := d.apellido, activo := true) else p
  }

  datatype Upserted = Upserted(db: Db, created: bool)

  /** `Paciente.objects.update_or_create(movil=d.movil, defaults={...})`:
      creates a row exactly when no row had the mobile number, and keeps the
      table's constraints. What it does to each row is `UpsertEffect`. */
  function Upsert(db: Db, d: PatientData): (u: Upserted)
    requires WellFormed(db)
    ensures WellFormed(u.db)
    ensures u.created <==> d.movil !in Keys(db.patients)
    ensures Keys(u.db.patients) == Keys(db.patients) + {d.movil}
    ensures u.created ==> |u.db.patients| == |db.patients| + 1 && u.db.nextPk == db.nextPk + 1
    ensures !u.created ==> |u.db.patients| == |db.patients| && u.db.nextPk == db.nextPk
  {
    var ps := db.patients;
    match FindMovil(ps, d.movil)
    case Some(i) =>
      var ps' := ps[i := Refresh(ps[i], d)];
      assert Keys(ps') == Keys(ps) by {
        forall m | m in Keys(ps) ensures m in Keys(ps') {
          var j :| 0 <= j < |ps| && ps[j].movil == m;
          assert ps'[j].movil == m;
        }
      }
      Upserted(Db(ps', db.nextPk), false)
    case None =>
      var ps' := ps + [NewPaciente(db.nextPk, d.nombre, d.apellido, d.movil)];
      assert Keys(ps') == Keys(ps) + {d.movil} by {
        forall m | m in Keys(ps) ensures m in Keys(ps') {
          var j :| 0 <= j < |ps| && ps[j].movil == m;
          assert ps'[j].movil == m;
        }
        assert ps'[|ps|].movil == d.movil;
      }
      Upserted(Db(ps', db.nextPk + 1), true)
  }

  /** What `update_or_create` does row by row: afterwards the one row with
      the mobile number carries the new names and is active; the rows keep
      their place, key and mobile number, and every row with another mobile
      number is unchanged; a created row is a new patient appended under the
      next primary key. */
  lemma UpsertEffect(db: Db, d: PatientData)
    requires WellFormed(db)
    ensures var u := Upsert(db, d);
      && (forall i :: 0 <= i < |u.db.patients| && u.db.patients[i].movil == d.movil ==>
            u.db.patients[i].nombre == d.nombre && u.db.patients[i].apellido == d.apellido
            && u.db.patients[i].activo)
      && (forall i :: 0 <= i < |db.patients| ==> u.db.patients[i] == Refresh(db.patients[i], d))
      && (forall i :: 0 <= i < |db.patients| && db.patients[i].movil != d.movil ==>
            u.db.patients[i] == db.patients[i])
      && (u.created ==> u.db.patients == db.patients + [NewPaciente(db.nextPk, d.nombre, d.apellido, d.movil)])
  {
  }

  /** After `update_or_create` exactly one row carries the mobile number. */
  lemma UpsertLeavesOneRow(db: Db, d: PatientData)
    requires WellFormed(db)
    ensures var ps := Upsert(db, d).db.patients;
      exists i :: 0 <= i < |ps| && ps[i].movil == d.movil
        && forall j :: 0 <= j < |ps| && ps[j].movil == d.movil ==> j == i
  {
  }

  const NOT_FOUND: string := "Paciente no encontrado"

  /** `paciente_toggle`: negates `activo` of the row with primary key `pk`,
      or reports that there is none. */
  function Toggle(db: Db, pk: nat): (r: Result<Db, string>)
    requires WellFormed(db)
    ensures r.Err? <==> forall i :: 0 <= i < |db.patients| ==> db.patients[i].pk != pk
    ensures r.Err? ==> r.error == NOT_FOUND
    ensures r.Ok? ==>
      && WellFormed(r.value)
      && r.value.nextPk == db.nextPk
      && |r.value.patients| == |db.patients|
      && forall i :: 0 <= i < |db.patients| ==>
           r.value.patients[i] ==
             if db.patients[i].pk == pk then db.patients[i].(activo := !db.patients[i].activo)
             else db.patients[i]
  {
    match FindPk(db.patients, pk)
    case None => Err(NOT_FOUND)
    case Some(i) =>
      var p := db.patients[i];
      Ok(db.(patients := db.patients[i := p.(activo := !p.activo)]))
  }

  /** Toggling twice restores the table. */
  lemma ToggleTwice(db: Db, pk: nat)
    requires WellFormed(db)
    requires Toggle(db, pk).Ok?
    ensures Toggle(Toggle(db, pk).value, pk) == Ok(db)
  {
    var db1 := Toggle(db, pk).value;
    var db2 := Toggle(db1, pk).value;
    assert db2.patients == db.patients;
  }

  /** The confirmation shown after a toggle, from the new value of
      `activo`. */
  function ToggleMessage(activo: bool): (r: string) {
    "Paciente " + (if activo then "activado" else "desactivado") + " correctamente"
  }

  /** The patient table, updated in place by the views. */
  class Table {
    var patients: seq<Paciente>
    var nextPk: nat

    function State(): (db: Db)
      reads this
    {
      Db(patients, nextPk)
    }

    ghost predicate Valid()
      reads this
    {
      WellFormed(State())
    }

    /** An empty table; the auto-increment column starts at 1. */
    constructor ()
      ensures Valid() && State() == Db([], 1)
    {
      patients := [];
      nextPk := 1;
    }

    /** `update_or_create`: reports whether a row was created. */
    method UpdateOrCreate(d: PatientData) returns (created: bool)
      requires Valid()
      modifies this
      ensures Valid()
      ensures Upserted(State(), created) == Upsert(old(State()), d)
    {
      var found := FindMovil(patients, d.movil);
      if found.Some? {
        var i := found.value;
        patients := patients[i := Refresh(patients[i], d)];
        created := false;
      } else {
        patients := patients + [NewPaciente(nextPk, d.nombre, d.apellido, d.movil)];
        nextPk := nextPk + 1;
        created := true;
      }
    }

    /** `paciente_toggle`: the confirmation message, or the not-found
        error. */
    method ToggleActivo(pk: nat) returns (msg: Result<string, string>)
      requires Valid()
      modifies this
      ensures Valid()
      ensures var t := Toggle(old(State()), pk);
        && (t.Err? ==> msg == Err(t.error) && State() == old(State()))
        && (t.Ok? ==> State() == t.value
                      && exists i :: 0 <= i < |patients| && patients[i].pk == pk
                                     && msg == Ok(ToggleMessage(patients[i].activo)))
    {
      var found := FindPk(patients, pk);
      if found.None? {
        msg := Err(NOT_FOUND);
        return;
      }
      var i := found.value;
      var p := patients[i];
      patients := patients[i := p.(activo := !p.activo)];
      msg := Ok(ToggleMessage(patients[i].activo));
    }
  }
}
