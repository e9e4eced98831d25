/** The computations inside the web frontend's page handlers: the
    instructor dashboard's course filter and statistics, the student
    dashboard's average and pending count, the join that decorates
    progress entries with catalog titles, and the read side of the local
    fallback store. Service calls are replaced by the values they return. */
module Frontend {
  import opened Common
  import opened Json
  import opened Cursos

  /** A progress entry as the frontend receives it: a JSON dictionary. */
  type Item = map<string, Value>

  // ---------------------------------------------------------------------
  // Instructor dashboard

  /** `c.get('instructor_id') == instructor_email or c.get('instructor_id') == 'inst1'`. */
  predicate Owns(c: Course, email: Option<string>)
    ensures c.instructorId == "inst1" ==> Owns(c, email)
    ensures email.None? ==> (Owns(c, email) <==> c.instructorId == "inst1")
  {
    c.instructorId == "inst1" || (email.Some? && c.instructorId == email.value)
  }

  /** The list comprehension selecting the instructor's courses. */
  function MisCursos(todos: seq<Course>, email: Option<string>): (r: seq<Course>)
    ensures |r| <= |todos|
    ensures forall c :: c in r <==> c in todos && Owns(c, email)
  {
    if todos == [] then []
    else (if Owns(todos[0], email) then [todos[0]] else []) + MisCursos(todos[1..], email)
  }

  /** The filter keeps catalog order: filtering a concatenation is the
      concatenation of the filtered parts. */
  lemma {:induction false} MisCursosAppend(a: seq<Course>, b: seq<Course>, email: Option<string>)
    ensures MisCursos(a + b, email) == MisCursos(a, email) + MisCursos(b, email)
  {
    if a != [] {
      assert (a + b)[1..] == a[1..] + b;
      MisCursosAppend(a[1..], b, email);
    } else {
      assert a + b == b;
    }
  }

  datatype InstructorStats = InstructorStats(numCursos: nat, totalEstudiantes: nat, evaluacionesPendientes: nat)

  /** One row of the instructor's course table. */
  datatype EnrichedCourse = EnrichedCourse(
    cursoId: string, cursoTitulo: string, cursoDescripcion: string, duracionHoras: int, rating: real)

  function EnrichCourse(c: Course): (e: EnrichedCourse)
    ensures e.cursoId == c.id && e.cursoTitulo == c.titulo && e.cursoDescripcion == c.descripcion
    ensures e.duracionHoras == c.duracionHoras && e.rating == c.rating
  {
    EnrichedCourse(c.id, c.titulo, c.descripcion, c.duracionHoras, c.rating)
  }

  /** `dashboard_instructor`: the instructor's courses with the mocked
      statistics (twelve students and three pending evaluations per
      course) and one table row per course, in the same order. */
  method DashboardInstructor(todos: seq<Course>, email: Option<string>)
    returns (cursos: seq<EnrichedCourse>, stats: InstructorStats)
    ensures var mis := MisCursos(todos, email);
      && stats == InstructorStats(|mis|, 12 * |mis|, 3 * |mis|)
      && |cursos| == |mis|
      && forall i :: 0 <= i < |mis| ==> cursos[i] == EnrichCourse(mis[i])
  {
    var mis := MisCursos(todos, email);
    stats := InstructorStats(|mis|, |mis| * 12, |mis| * 3);
    cursos := [];
    var i := 0;
    while i < |mis|
      invariant 0 <= i <= |mis|
      invariant |cursos| == i
      invariant forall j :: 0 <= j < i ==> cursos[j] == EnrichCourse(mis[j])
    {
      var c := mis[i];
      cursos := cursos + [EnrichedCourse(c.id, c.titulo, c.descripcion, c.duracionHoras, c.rating)];
      i := i + 1;
    }
  }

  // ---------------------------------------------------------------------
  // Student dashboard: average and pending evaluations

  /** The entry's completion is an integer, or absent. */
  predicate IntOrAbsentPct(item: Item)
  {
    "completado_pct" !in item || item["completado_pct"].Int?
  }

  /** `c.get('completado_pct', 0)`. */
  function PctOf(item: Item): (p: int)
    requires IntOrAbsentPct(item)
    ensures "completado_pct" !in item ==> p == 0
    ensures "completado_pct" in item ==> item["completado_pct"] == Int(p)
  {
    if "completado_pct" in item then item["completado_pct"].i else 0
  }

  predicate AllIntOrAbsentPct(items: seq<Item>)
  {
    forall i :: 0 <= i < |items| ==> IntOrAbsentPct(items[i])
  }

  function SumPct(items: seq<Item>): (t: int)
    requires AllIntOrAbsentPct(items)
    ensures (forall i :: 0 <= i < |items| ==> PctOf(items[i]) >= 0) ==> t >= 0
  {
    if items == [] then 0 else PctOf(items[0]) + SumPct(items[1..])
  }

  lemma {:induction false} SumPctBounds(items: seq<Item>)
    requires AllIntOrAbsentPct(items)
    requires forall i :: 0 <= i < |items| ==> 0 <= PctOf(items[i]) <= 100
    ensures 0 <= SumPct(items) <= 100 * |items|
  {
    if items != [] {
      SumPctBounds(items[1..]);
    }
  }

  function Abs(x: int): (a: nat) { if x < 0 then -x else x }

  /** Python's `round(num / den)`: the nearest integer, ties to the even one. */
  function RoundHalfEven(num: int, den: int): (r: int)
    requires den > 0
    ensures 2 * Abs(num - r * den) <= den
    ensures 2 * Abs(num - r * den) == den ==> r % 2 == 0
  {
    var q := num / den;
    var rem := num % den;
    assert num - q * den == rem;
    assert num - (q + 1) * den == rem - den;
    if 2 * rem < den then q
    else if 2 * rem > den then q + 1
    else if q % 2 == 0 then q
    else q + 1
  }

  /** A product with a positive factor is positive only if the other factor is. */
  lemma PositiveFactor(x: int, den: int)
    requires den > 0 && x * den > 0
    ensures x > 0
  {
  }

  /** Two integers within half a step of the same quotient are at most
      one apart, and one apart only when both sit exactly half a step away. */
  lemma NearIntegers(num: int, den: int, r: int, s: int)
    requires den > 0
    requires 2 * Abs(num - r * den) <= den && 2 * Abs(num - s * den) <= den
    ensures -1 <= s - r <= 1
    ensures s - r != 0 ==> 2 * Abs(num - r * den) == den && 2 * Abs(num - s * den) == den
  {
    var d := s - r;
    assert d * den == (num - r * den) - (num - s * den);
    assert (2 - d) * den == 2 * den - d * den;
    PositiveFactor(2 - d, den);
    assert (d + 2) * den == d * den + 2 * den;
    PositiveFactor(d + 2, den);
    assert d == 1 ==> d * den == den;
    assert d == -1 ==> d * den == -den;
  }

  /** The two properties of RoundHalfEven pin its result down: no other
      integer is as near, with ties going to the even one. */
  lemma RoundUnique(num: int, den: int, r: int)
    requires den > 0
    requires 2 * Abs(num - r * den) <= den
    requires 2 * Abs(num - r * den) == den ==> r % 2 == 0
    ensures r == RoundHalfEven(num, den)
  {
    var s := RoundHalfEven(num, den);
    NearIntegers(num, den, r, s);
  }

  /** Rounding a quotient that lies between two integers stays between them. */
  lemma RoundBetween(num: int, den: int, lo: int, hi: int)
    requires den > 0
    requires lo * den <= num <= hi * den
    ensures lo <= RoundHalfEven(num, den) <= hi
  {
    var r := RoundHalfEven(num, den);
    assert (r - lo + 1) * den == r * den - lo * den + den;
    PositiveFactor(r - lo + 1, den);
    assert (hi - r + 1) * den == hi * den - r * den + den;
    PositiveFactor(hi - r + 1, den);
  }

  /** `promedio_progreso`: 0 without courses, else `round(total / n)`. */
  function Promedio(items: seq<Item>): (p: int)
    requires AllIntOrAbsentPct(items)
    ensures |items| == 0 ==> p == 0
    ensures |items| > 0 ==> 2 * Abs(SumPct(items) - p * |items|) <= |items|
  {
    if |items| > 0 then RoundHalfEven(SumPct(items), |items|) else 0
  }

  /** The average of percentages is itself a percentage. */
  lemma PromedioBounds(items: seq<Item>)
    requires AllIntOrAbsentPct(items)
    requires forall i :: 0 <= i < |items| ==> 0 <= PctOf(items[i]) <= 100
    ensures 0 <= Promedio(items) <= 100
  {
    if |items| > 0 {
      SumPctBounds(items);
      RoundBetween(SumPct(items), |items|, 0, 100);
    }
  }

  /** `c.get('completado_pct', 0) > 50 and c.get('calificacion') is None`. */
  predicate Pending(item: Item)
    requires IntOrAbsentPct(item)
    ensures Pending(item) ==> "completado_pct" in item && Get(item, "calificacion") == Null
  {
    PctOf(item) > 50 && Get(item, "calificacion") == Null
  }

  /** `evaluaciones_pendientes`: the number of pending entries. */
  function Pendientes(items: seq<Item>): (r: nat)
    requires AllIntOrAbsentPct(items)
    ensures r <= |items|
    ensures r == 0 <== forall i :: 0 <= i < |items| ==> !Pending(items[i])
    ensures r == |items| <== forall i :: 0 <= i < |items| ==> Pending(items[i])
  {
    if items == [] then 0 else (if Pending(items[0]) then 1 else 0) + Pendientes(items[1..])
  }

  // ---------------------------------------------------------------------
  // Joining progress entries with the catalog

  /** The `cursos_info` dictionary: identifier to course, later courses
      overwriting earlier ones with the same identifier. */
  function CatalogIndex(cs: seq<Course>): (m: map<string, Course>)
    ensures forall id :: id in m ==> m[id].id == id && m[id] in cs
  {
    if cs == [] then map[] else CatalogIndex(cs[..|cs| - 1])[cs[|cs| - 1].id := cs[|cs| - 1]]
  }

  /** The index knows exactly the identifiers of the catalog. */
  lemma {:induction false} CatalogIndexKeys(cs: seq<Course>)
    ensures CatalogIndex(cs).Keys == set i | 0 <= i < |cs| :: cs[i].id
  {
    if cs != [] {
      var init := cs[..|cs| - 1];
      CatalogIndexKeys(init);
      assert forall i :: 0 <= i < |init| ==> init[i] == cs[i];
      assert (set i | 0 <= i < |cs| :: cs[i].id) == (set i | 0 <= i < |init| :: init[i].id) + {cs[|cs| - 1].id};
    }
  }

  /** When identifiers repeat, the last course with that identifier wins. */
  lemma {:induction false} CatalogIndexLastWins(cs: seq<Course>, i: nat)
    requires i < |cs|
    requires forall j :: i < j < |cs| ==> cs[j].id != cs[i].id
    ensures cs[i].id in CatalogIndex(cs) && CatalogIndex(cs)[cs[i].id] == cs[i]
  {
    if i < |cs| - 1 {
      var init := cs[..|cs| - 1];
      CatalogIndexLastWins(init, i);
    }
  }

  /** The loop that fills `cursos_info`. */
  method BuildCatalogIndex(cs: seq<Course>) returns (info: map<string, Course>)
    ensures info == CatalogIndex(cs)
  {
    info := map[];
    var i := 0;
    while i < |cs|
      invariant 0 <= i <= |cs|
      invariant info == CatalogIndex(cs[..i])
    {
      assert cs[..i + 1][..i] == cs[..i];
      info := info[cs[i].id := cs[i]];
      i := i + 1;
    }
    assert cs[..i] == cs;
  }

  /** One entry after the join: a known course adds its title and
      description; any other entry is left as it was. */
  function EnrichItem(item: Item, info: map<string, Course>): (r: Item)
    ensures var cid := Get(item, "curso_id");
      if cid.Str? && cid.s in info then
        && r.Keys == item.Keys + {"curso_titulo", "curso_descripcion"}
        && r["curso_titulo"] == Str(info[cid.s].titulo)
        && r["curso_descripcion"] == Str(info[cid.s].descripcion)
        && forall k :: k in item && k != "curso_titulo" && k != "curso_descripcion" ==> r[k] == item[k]
      else r == item
  {
    var cid := Get(item, "curso_id");
    if cid.Str? && cid.s in info then
      item["curso_titulo" := Str(info[cid.s].titulo)]["curso_descripcion" := Str(info[cid.s].descripcion)]
    else item
  }

  /** The join keeps what the statistics read: completion and grade. */
  lemma EnrichKeepsStats(item: Item, info: map<string, Course>)
    ensures var r := EnrichItem(item, info);
      && ("completado_pct" in r <==> "completado_pct" in item)
      && ("completado_pct" in item ==> r["completado_pct"] == item["completado_pct"])
      && Get(r, "calificacion") == Get(item, "calificacion")
      && Get(r, "curso_id") == Get(item, "curso_id")
  {
  }

  /** The progress page's join: each entry is decorated in place, so the
      list keeps its length and order. */
  method EnrichProgress(items: seq<Item>, catalog: seq<Course>) returns (out: seq<Item>)
    ensures |out| == |items|
    ensures forall i :: 0 <= i < |items| ==> out[i] == EnrichItem(items[i], CatalogIndex(catalog))
  {
    var info := BuildCatalogIndex(catalog);
    out := items;
    var i := 0;
    while i < |out|
      invariant 0 <= i <= |out| && |out| == |items|
      invariant forall j :: 0 <= j < i ==> out[j] == EnrichItem(items[j], info)
      invariant forall j :: i <= j < |out| ==> out[j] == items[j]
    {
      var item := out[i];
      var cid := Get(item, "curso_id");
      if cid.Str? && cid.s in info {
        item := item["curso_titulo" := Str(info[cid.s].titulo)];
        item := item["curso_descripcion" := Str(info[cid.s].descripcion)];
        out := out[i := item];
      }
      i := i + 1;
    }
  }

  datatype StudentStats = StudentStats(numCursos: nat, promedioProgreso: int, evaluacionesPendientes: nat)

  /** `user.get('email') or user.get('id')`. */
  function StudentId(email: Option<string>, id: Option<string>): (sid: Option<string>)
    ensures Present(email) ==> sid == email
    ensures !Present(email) ==> sid == id
  {
    if email.Some? && email.value != "" then email else id
  }

  /** Python truthiness of an optional string. */
  predicate Present(s: Option<string>)
  {
    s.Some? && s.value != ""
  }

  /** `dashboard_estudiante`: without a student identifier the statistics
      are zero and the list is empty; otherwise the statistics are the
      count, the rounded average and the pending count of the fetched
      entries, and the list is the fetched entries joined with the catalog. */
  method DashboardEstudiante(email: Option<string>, id: Option<string>, fetched: seq<Item>, catalog: seq<Course>)
    returns (cursos: seq<Item>, stats: StudentStats)
    requires AllIntOrAbsentPct(fetched)
    ensures !Present(StudentId(email, id)) ==> cursos == [] && stats == StudentStats(0, 0, 0)
    ensures Present(StudentId(email, id)) ==>
      && stats == StudentStats(|fetched|, Promedio(fetched), Pendientes(fetched))
      && |cursos| == |fetched|
      && forall i :: 0 <= i < |fetched| ==> cursos[i] == EnrichItem(fetched[i], CatalogIndex(catalog))
  {
    stats := StudentStats(0, 0, 0);
    cursos := [];
    var estudianteId := StudentId(email, id);
    if Present(estudianteId) {
      var numCursos := |fetched|;
      var promedio := if numCursos > 0 then RoundHalfEven(SumPct(fetched), numCursos) else 0;
      var pendientes := Pendientes(fetched);
      cursos := EnrichProgress(fetched, catalog);
      stats := StudentStats(numCursos, promedio, pendientes);
    }
  }

  // ---------------------------------------------------------------------
  // The local fallback store (read side)

  class MockStore {
    var cursos: seq<Course>
    var modulos: map<string, seq<Module>>
    var lecciones: map<string, seq<Lesson>>

    constructor (cursos: seq<Course>, modulos: map<string, seq<Module>>, lecciones: map<string, seq<Lesson>>)
      ensures this.cursos == cursos && this.modulos == modulos && this.lecciones == lecciones
    {
      this.cursos := cursos;
      this.modulos := modulos;
      this.lecciones := lecciones;
    }

    /** A copy of the stored course list, in order. */
    function ListCursos(): (r: seq<Course>)
      reads this
      ensures r == cursos
    {
      cursos
    }

    /** The first stored course with that identifier, or None. */
    function GetCurso(id: string): (r: Option<Course>)
      reads this
      ensures r.Some? <==> HasId(cursos, id)
      ensures r.Some? ==> exists i :: 0 <= i < |cursos| && cursos[i] == r.value && r.value.id == id
                                      && forall j :: 0 <= j < i ==> cursos[j].id != id
    {
      FindCourse(cursos, id)
    }

    /** The stored modules of a course, `[]` for an unknown course. */
    function GetModulos(cursoId: string): (r: seq<Module>)
      reads this
      ensures cursoId in modulos ==> r == modulos[cursoId]
      ensures cursoId !in modulos ==> r == []
    {
      GetOrEmpty(modulos, cursoId)
    }

    /** The stored lessons of a module, `[]` for an unknown module. */
    function GetLecciones(moduloId: string): (r: seq<Lesson>)
      reads this
      ensures moduloId in lecciones ==> r == lecciones[moduloId]
      ensures moduloId !in lecciones ==> r == []
    {
      GetOrEmpty(lecciones, moduloId)
    }
  }
}
