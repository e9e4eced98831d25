/** The progress service: for every student, the list of their course
    progress entries. Entries are upserted one course at a time, a student
    without progress is given a random allocation of catalog courses on
    first read, and an explicit reassignment replaces a student's list. */
module Progreso {
  import opened Common
  import opened Cursos

  /** A stored progress entry: the `Progreso` record without the student. */
  datatype Entry = Entry(
    cursoId: string,
    completadoPct: int,
    tiempoInvertidoHoras: int,
    ultimaLeccion: string,
    fechaInicio: string,
    fechaUltimaActividad: string,
    calificacion: Option<real>)

  /** The body of `POST /progreso`. */
  datatype Progreso = Progreso(
    estudianteId: string,
    cursoId: string,
    completadoPct: int,
    tiempoInvertidoHoras: int,
    ultimaLeccion: string,
    fechaInicio: string,
    fechaUltimaActividad: string,
    calificacion: Option<real>)

  /** `progreso.dict(exclude={"estudiante_id"})`. */
  function ToEntry(p: Progreso): (e: Entry)
    ensures e.cursoId == p.cursoId && e.completadoPct == p.completadoPct
    ensures e.calificacion == p.calificacion
  {
    Entry(p.cursoId, p.completadoPct, p.tiempoInvertidoHoras, p.ultimaLeccion,
          p.fechaInicio, p.fechaUltimaActividad, p.calificacion)
  }

  function EntryCourse(e: Entry): (cid: string) { e.cursoId }

  /** No two entries of a student's list are about the same course. */
  predicate UniqueCourses(l: seq<Entry>)
  {
    forall i, j :: 0 <= i < j < |l| ==> l[i].cursoId != l[j].cursoId
  }

  /** The list after `create_progreso`: the first entry for the same course
      is replaced where it stands; without one, the entry is appended. */
  function Upsert(l: seq<Entry>, e: Entry): (r: seq<Entry>)
    ensures FirstIndex(l, EntryCourse, e.cursoId).Some? ==>
      var i := FirstIndex(l, EntryCourse, e.cursoId).value; |r| == |l| && r == l[i := e]
    ensures FirstIndex(l, EntryCourse, e.cursoId).None? ==> r == l + [e]
  {
    match FirstIndex(l, EntryCourse, e.cursoId)
    case Some(i) => l[i := e]
    case None => l + [e]
  }

  /** After an upsert the entry is in the list and is the one found for its course. */
  lemma UpsertFinds(l: seq<Entry>, e: Entry)
    ensures var r := Upsert(l, e); exists i :: FirstIndex(r, EntryCourse, e.cursoId) == Some(i) && r[i] == e
  {
    var r := Upsert(l, e);
    match FirstIndex(l, EntryCourse, e.cursoId)
    case Some(i) =>
      assert forall j :: 0 <= j < i ==> r[j] == l[j];
      SameFirstIndex(r, e.cursoId, i);
    case None =>
      assert forall j :: 0 <= j < |l| ==> r[j] == l[j];
      SameFirstIndex(r, e.cursoId, |l|);
  }

  /** The first index of a course is determined by where it first occurs. */
  lemma SameFirstIndex(l: seq<Entry>, cid: string, i: nat)
    requires i < |l| && l[i].cursoId == cid
    requires forall j :: 0 <= j < i ==> l[j].cursoId != cid
    ensures FirstIndex(l, EntryCourse, cid) == Some(i)
  {
  }

  /** Applying the same upsert twice is the same as applying it once. */
  lemma UpsertIdempotent(l: seq<Entry>, e: Entry)
    ensures Upsert(Upsert(l, e), e) == Upsert(l, e)
  {
    var r := Upsert(l, e);
    UpsertFinds(l, e);
    var i :| FirstIndex(r, EntryCourse, e.cursoId) == Some(i) && r[i] == e;
    assert r[i := e] == r;
  }

  /** An upsert keeps "at most one entry per course". */
  lemma UpsertKeepsUnique(l: seq<Entry>, e: Entry)
    requires UniqueCourses(l)
    ensures UniqueCourses(Upsert(l, e))
  {
  }

  /** The random choices of one allocated course: completion percentage,
      hours, lesson number and the grade in tenths (35..50 is 3.5..5.0). */
  datatype Draw = Draw(pct: int, hours: int, lesson: nat, gradeTenths: int)

  /** The constants of one allocation path: the completion range, the
      bound on hours and the completion from which a grade is given. */
  datatype Policy = Policy(minPct: int, maxPct: int, maxHours: int, threshold: int)

  /** `progreso_estudiante`: pct in [10,95], hours in [1,40], grade iff pct >= 75. */
  const Bootstrap := Policy(10, 95, 40, 75)

  /** `asignar_cursos_aleatorios`: pct in [5,100], hours in [1,50], grade iff pct >= 80. */
  const Reassign := Policy(5, 100, 50, 80)

  const FechaInicio := "2025-01-15"
  const FechaUltimaActividad := "2025-11-17"

  /** `random.randint(3, 5)` and `random.sample(cursos, k=min(k, len(cursos)))`:
      distinct positions of the catalog. */
  predicate Selection(catalog: seq<Course>, k: int, indices: seq<nat>)
  {
    && 3 <= k <= 5
    && |indices| == Min(k, |catalog|)
    && (forall i :: 0 <= i < |indices| ==> indices[i] < |catalog|)
    && Distinct(indices)
  }

  /** The per-course `random` calls stay in the ranges the path draws from. */
  predicate DrawsFit(draws: seq<Draw>, pol: Policy, n: nat)
  {
    && |draws| == n
    && forall i :: 0 <= i < n ==>
         && pol.minPct <= draws[i].pct <= pol.maxPct
         && 1 <= draws[i].hours <= pol.maxHours
         && 1 <= draws[i].lesson <= 10
         && 35 <= draws[i].gradeTenths <= 50
  }

  /** The entry synthesised for one selected course. */
  function MakeEntry(c: Course, d: Draw, pol: Policy): (e: Entry)
    ensures e.cursoId == c.id
    ensures e.calificacion.Some? <==> d.pct >= pol.threshold
    ensures e.calificacion.Some? ==> e.calificacion.value * 10.0 == d.gradeTenths as real
    ensures |e.ultimaLeccion| > 8 && e.ultimaLeccion[..8] == "Lección "
    ensures pol.minPct <= d.pct <= pol.maxPct && 1 <= d.hours <= pol.maxHours && 35 <= d.gradeTenths <= 50
            ==> WellFormed(e, pol)
  {
    Entry(c.id, d.pct, d.hours, "Lección " + NatToString(d.lesson), FechaInicio, FechaUltimaActividad,
          if d.pct >= pol.threshold then Some(d.gradeTenths as real / 10.0) else None)
  }

  /** The list of entries a path builds from its selection. */
  function Allocation(catalog: seq<Course>, indices: seq<nat>, draws: seq<Draw>, pol: Policy): (r: seq<Entry>)
    requires forall i :: 0 <= i < |indices| ==> indices[i] < |catalog|
    requires |draws| == |indices|
    ensures |r| == |indices|
    ensures forall i :: 0 <= i < |r| ==> r[i].cursoId == catalog[indices[i]].id
  {
    seq(|indices|, i requires 0 <= i < |indices| => MakeEntry(catalog[indices[i]], draws[i], pol))
  }

  /** An entry respects a path's ranges and its grade rule. */
  predicate WellFormed(e: Entry, pol: Policy)
  {
    && pol.minPct <= e.completadoPct <= pol.maxPct
    && 1 <= e.tiempoInvertidoHoras <= pol.maxHours
    && (e.calificacion.Some? <==> e.completadoPct >= pol.threshold)
    && (e.calificacion.Some? ==> 3.5 <= e.calificacion.value <= 5.0)
  }

  /** What an allocation promises: between three and five courses (fewer
      only when the catalog is smaller), each a distinct catalog position,
      each entry within the path's ranges with a grade exactly when the
      completion reaches the threshold; with unique catalog identifiers the
      entries are about distinct courses. */
  lemma AllocationSpec(catalog: seq<Course>, k: int, indices: seq<nat>, draws: seq<Draw>, pol: Policy)
    requires Selection(catalog, k, indices) && DrawsFit(draws, pol, |indices|)
    ensures var r := Allocation(catalog, indices, draws, pol);
      && |r| == Min(k, |catalog|)
      && (|catalog| >= 3 ==> 3 <= |r| <= 5)
      && (forall i :: 0 <= i < |r| ==> r[i].cursoId == catalog[indices[i]].id && WellFormed(r[i], pol))
      && (UniqueIds(catalog) ==> UniqueCourses(r))
  {
  }

  /** The loop shared by both allocation paths: one entry per selected course. */
  method Allocate(catalog: seq<Course>, indices: seq<nat>, draws: seq<Draw>, pol: Policy) returns (asignados: seq<Entry>)
    requires forall i :: 0 <= i < |indices| ==> indices[i] < |catalog|
    requires |draws| == |indices|
    ensures asignados == Allocation(catalog, indices, draws, pol)
  {
    asignados := [];
    var i := 0;
    while i < |indices|
      invariant 0 <= i <= |indices|
      invariant |asignados| == i
      invariant forall j :: 0 <= j < i ==> asignados[j] == MakeEntry(catalog[indices[j]], draws[j], pol)
    {
      var c := catalog[indices[i]];
      var d := draws[i];
      var calificacion := if d.pct < pol.threshold then None else Some(d.gradeTenths as real / 10.0);
      var item := Entry(c.id, d.pct, d.hours, "Lección " + NatToString(d.lesson),
                        FechaInicio, FechaUltimaActividad, calificacion);
      asignados := asignados + [item];
      i := i + 1;
    }
  }

  class ProgressStore {
    var progreso: map<string, seq<Entry>>

    /** Every student's list has at most one entry per course. */
    ghost predicate Valid()
      reads this
    {
      forall s :: s in progreso ==> UniqueCourses(progreso[s])
    }

    constructor ()
      ensures progreso == map[] && Valid()
    {
      progreso := map[];
    }

    /** The student's stored list, `[]` when there is no record. */
    function CoursesOf(sid: string): (l: seq<Entry>)
      reads this
      ensures sid in progreso ==> l == progreso[sid]
      ensures sid !in progreso ==> l == []
      ensures Valid() ==> UniqueCourses(l)
    {
      GetOrEmpty(progreso, sid)
    }

    /** `POST /progreso`: creates the student's record if missing, then
        replaces the entry for the same course in place or appends a new
        one; no other student's record changes. */
    method CreateProgreso(p: Progreso) returns (updated: bool)
      modifies this
      ensures progreso == old(progreso)[p.estudianteId := Upsert(old(CoursesOf(p.estudianteId)), ToEntry(p))]
      ensures updated <==> FirstIndex(old(CoursesOf(p.estudianteId)), EntryCourse, p.cursoId).Some?
      ensures old(Valid()) ==> Valid()
    {
      ghost var before := CoursesOf(p.estudianteId);
      if p.estudianteId !in progreso {
        progreso := progreso[p.estudianteId := []];
      }
      var cursos := progreso[p.estudianteId];
      assert cursos == before;
      var e := ToEntry(p);
      var idx := 0;
      while idx < |cursos|
        invariant 0 <= idx <= |cursos|
        invariant forall j :: 0 <= j < idx ==> cursos[j].cursoId != p.cursoId
      {
        if cursos[idx].cursoId == p.cursoId {
          SameFirstIndex(cursos, p.cursoId, idx);
          progreso := progreso[p.estudianteId := cursos[idx := e]];
          if old(Valid()) { UpsertKeepsUnique(before, e); }
          return true;
        }
        idx := idx + 1;
      }
      progreso := progreso[p.estudianteId := cursos + [e]];
      if old(Valid()) { UpsertKeepsUnique(before, e); }
      updated := false;
    }

    /** The student has no record or an empty one. */
    predicate NeedsBootstrap(sid: string)
      reads this
      ensures NeedsBootstrap(sid) <==> CoursesOf(sid) == []
    {
      sid !in progreso || progreso[sid] == []
    }

    /** `GET /estudiantes/{id}/cursos`: a non-empty record is returned as
        it is and nothing changes. Otherwise the catalog is fetched
        (`None` when the fetch fails); an empty or unreachable catalog
        gives an empty list and stores nothing, and a non-empty one gives
        a fresh allocation on the bootstrap path, stored for the student. */
    method ProgresoEstudiante(sid: string, catalog: Option<seq<Course>>, k: int, indices: seq<nat>, draws: seq<Draw>)
      returns (r: seq<Entry>)
      requires catalog.Some? ==> Selection(catalog.value, k, indices) && DrawsFit(draws, Bootstrap, |indices|)
      modifies this
      ensures !old(NeedsBootstrap(sid)) ==> r == old(progreso)[sid] && progreso == old(progreso)
      ensures old(NeedsBootstrap(sid)) && (catalog.None? || catalog.value == []) ==>
        r == [] && progreso == old(progreso)
      ensures old(NeedsBootstrap(sid)) && catalog.Some? && catalog.value != [] ==>
        r == Allocation(catalog.value, indices, draws, Bootstrap) && progreso == old(progreso)[sid := r]
      ensures old(Valid()) && (catalog.Some? ==> UniqueIds(catalog.value)) ==> Valid()
    {
      if sid in progreso && progreso[sid] != [] {
        return progreso[sid];
      }
      var cursos := if catalog.Some? then catalog.value else [];
      if cursos != [] {
        var asignados := Allocate(cursos, indices, draws, Bootstrap);
        AllocationSpec(cursos, k, indices, draws, Bootstrap);
        progreso := progreso[sid := asignados];
        return progreso[sid];
      }
      r := [];
    }

    /** `POST /estudiantes/{id}/asignar-cursos`: a failed catalog fetch is a
        500 and an empty catalog a 404, both leaving the store unchanged;
        otherwise the student's whole list is replaced by a fresh
        allocation on the reassignment path. */
    method AsignarCursosAleatorios(sid: string, catalog: Option<seq<Course>>, k: int, indices: seq<nat>, draws: seq<Draw>)
      returns (r: Result<seq<Entry>>)
      requires catalog.Some? ==> Selection(catalog.value, k, indices) && DrawsFit(draws, Reassign, |indices|)
      modifies this
      ensures catalog.None? ==> r == Err(InternalError) && progreso == old(progreso)
      ensures catalog == Some([]) ==> r == Err(NotFound) && progreso == old(progreso)
      ensures catalog.Some? && catalog.value != [] ==>
        r == Ok(Allocation(catalog.value, indices, draws, Reassign)) && progreso == old(progreso)[sid := r.value]
      ensures old(Valid()) && (catalog.Some? ==> UniqueIds(catalog.value)) ==> Valid()
    {
      if catalog.None? {
        return Err(InternalError);
      }
      var cursos := catalog.value;
      if cursos == [] {
        return Err(NotFound);
      }
      var asignados := Allocate(cursos, indices, draws, Reassign);
      AllocationSpec(cursos, k, indices, draws, Reassign);
      progreso := progreso[sid := asignados];
      r := Ok(asignados);
    }
  }

  /** Two reads in a row return the same list, whatever the second
      read's catalog and random choices: the first read either finds a
      populated record or stores a non-empty allocation, and a populated
      record is returned without fetching the catalog. */
  method ReadTwice(store: ProgressStore, sid: string,
                   catalog: Option<seq<Course>>, k: int, indices: seq<nat>, draws: seq<Draw>,
                   catalog': Option<seq<Course>>, k': int, indices': seq<nat>, draws': seq<Draw>)
    returns (first: seq<Entry>, second: seq<Entry>)
    requires catalog.Some? ==> Selection(catalog.value, k, indices) && DrawsFit(draws, Bootstrap, |indices|)
    requires catalog'.Some? ==> Selection(catalog'.value, k', indices') && DrawsFit(draws', Bootstrap, |indices'|)
    modifies store
    ensures first != [] ==> second == first
  {
    first := store.ProgresoEstudiante(sid, catalog, k, indices, draws);
    second := store.ProgresoEstudiante(sid, catalog', k', indices', draws');
  }
}
