/** `pacientes_lista` (home/views.py): the patient list filtered by state
    and by a case-insensitive search over both names and the mobile
    number, newest first, with counts over the whole table. */
module PatientList {
  import opened Strings
  import opened Models
  import opened PatientTable

  /** The `estado` filter: no filter when empty; otherwise active patients
      when it is exactly "activo" and inactive ones for any other value. */
  predicate StateMatches(p: Paciente, estado: string) {
    estado != "" ==> p.activo == (estado == "activo")
  }

  /** The `q` search: no filter when empty; otherwise `icontains` on
      `nombre`, `apellido` or `movil`. */
  predicate SearchMatches(p: Paciente, q: string) {
    q != "" ==> IContains(p.nombre, q) || IContains(p.apellido, q) || IContains(p.movil, q)
  }

  predicate Matches(p: Paciente, estado: string, q: string) {
    StateMatches(p, estado) && SearchMatches(p, q)
  }

  /** The filtered queryset in the model's ordering `-fecha_creacion`:
      the table holds the rows in creation order, so the listing reads it
      from the end. */
  function Listing(ps: seq<Paciente>, estado: string, q: string): (r: seq<Paciente>)
    ensures |r| <= |ps|
    ensures forall p :: p in r <==> p in ps && Matches(p, estado, q)
    decreases |ps|
  {
    if ps == [] then []
    else
      var last := ps[|ps| - 1];
      var rest := Listing(ps[..|ps| - 1], estado, q);
      assert forall p :: p in ps <==> p in ps[..|ps| - 1] || p == last by {
        assert ps == ps[..|ps| - 1] + [last];
      }
      if Matches(last, estado, q) then [last] + rest else rest
  }

  /** The listing shows the newest patient first: primary keys strictly
      decrease along it, so no patient appears twice. */
  predicate NewestFirst(r: seq<Paciente>) {
    forall i, j :: 0 <= i < j < |r| ==> r[i].pk > r[j].pk
  }

  lemma {:induction false} ListingNewestFirst(ps: seq<Paciente>, nextPk: nat, estado: string, q: string)
    requires PksIncreasing(ps, nextPk)
    ensures NewestFirst(Listing(ps, estado, q))
    decreases |ps|
  {
    if ps != [] {
      var init := ps[..|ps| - 1];
      var last := ps[|ps| - 1];
      ListingNewestFirst(init, last.pk, estado, q);
      var rest := Listing(init, estado, q);
      var r := Listing(ps, estado, q);
      if Matches(last, estado, q) {
        assert r == [last] + rest;
        forall i, j | 0 <= i < j < |r| ensures r[i].pk > r[j].pk {
          if i == 0 {
            assert r[0] == last && r[j] == rest[j - 1];
            assert r[j] in init;
            var k :| 0 <= k < |init| && init[k] == r[j];
            assert init[k].pk < last.pk;
          } else {
            assert r[i] == rest[i - 1] && r[j] == rest[j - 1];
          }
        }
      }
    }
  }

  /** Filtering with an empty state and an empty search lists everyone. */
  lemma {:induction false} ListingUnfiltered(ps: seq<Paciente>)
    ensures |Listing(ps, "", "")| == |ps|
    decreases |ps|
  {
    if ps != [] {
      ListingUnfiltered(ps[..|ps| - 1]);
    }
  }

  /** Patients counted as `activos`. */
  function CountActive(ps: seq<Paciente>): (n: nat)
    ensures n <= |ps|
    decreases |ps|
  {
    if ps == [] then 0 else CountActive(ps[..|ps| - 1]) + (if ps[|ps| - 1].activo then 1 else 0)
  }

  /** Patients counted as `inactivos`. */
  function CountInactive(ps: seq<Paciente>): (n: nat)
    ensures n <= |ps|
    decreases |ps|
  {
    if ps == [] then 0 else CountInactive(ps[..|ps| - 1]) + (if ps[|ps| - 1].activo then 0 else 1)
  }

  /** Every patient is either active or inactive. */
  lemma {:induction false} CountsPartition(ps: seq<Paciente>)
    ensures CountActive(ps) + CountInactive(ps) == |ps|
    decreases |ps|
  {
    if ps != [] {
      CountsPartition(ps[..|ps| - 1]);
    }
  }

  /** The `activos` count is the length of the listing filtered on
      "activo", and `inactivos` that of the listing filtered on any other
      state. */
  lemma {:induction false} CountsAreFilteredListings(ps: seq<Paciente>, estado: string)
    requires estado != "" && estado != "activo"
    ensures CountActive(ps) == |Listing(ps, "activo", "")|
    ensures CountInactive(ps) == |Listing(ps, estado, "")|
    decreases |ps|
  {
    if ps != [] {
      CountsAreFilteredListings(ps[..|ps| - 1], estado);
    }
  }

  /** The context of the list page. */
  datatype ListPage = ListPage(pacientes: seq<Paciente>, total: nat, activos: nat, inactivos: nat)

  /** `pacientes_lista`: the listing in newest-first order, and counts that
      cover the whole table whatever the filters. */
  function ListView(db: Db, estado: string, q: string): (page: ListPage)
    ensures page.activos + page.inactivos == page.total == |db.patients|
    ensures page.activos == |Listing(db.patients, "activo", "")|
    ensures page.inactivos == |Listing(db.patients, "inactivo", "")|
    ensures forall p :: p in page.pacientes <==> p in db.patients && Matches(p, estado, q)
    ensures WellFormed(db) ==> NewestFirst(page.pacientes)
  {
    CountsPartition(db.patients);
    CountsAreFilteredListings(db.patients, "inactivo");
    assert WellFormed(db) ==> NewestFirst(Listing(db.patients, estado, q)) by {
      if WellFormed(db) {
        ListingNewestFirst(db.patients, db.nextPk, estado, q);
      }
    }
    ListPage(Listing(db.patients, estado, q), |db.patients|, CountActive(db.patients), CountInactive(db.patients))
  }
}
