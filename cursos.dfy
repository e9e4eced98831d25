/** The course catalog service: an ordered list of courses, the modules of
    each course and the lessons of each module, all held in memory. */
module Cursos {
  import opened Common

  /** A course record of the catalog (the `Curso` request model). */
  datatype Course = Course(
    id: string,
    titulo: string,
    descripcion: string,
    instructorId: string,
    duracionHoras: int,
    rating: real,
    nivel: Option<string>)

  datatype Module = Module(id: string, cursoId: string, titulo: string, descripcion: string, orden: int)

  datatype Lesson = Lesson(
    id: string,
    moduloId: string,
    titulo: string,
    contenido: string,
    duracionMinutos: int,
    orden: int)

  function CourseId(c: Course): (id: string) { c.id }

  /** Some course of `cs` carries the identifier `id`. */
  predicate HasId(cs: seq<Course>, id: string)
  {
    exists i :: 0 <= i < |cs| && cs[i].id == id
  }

  /** No two courses of `cs` share an identifier. */
  predicate UniqueIds(cs: seq<Course>)
  {
    forall i, j :: 0 <= i < j < |cs| ==> cs[i].id != cs[j].id
  }

  /** The first course of `cs` with identifier `id`, if any: the search
      loop shared by the service's `get_curso` and the frontend store. */
  function FindCourse(cs: seq<Course>, id: string): (r: Option<Course>)
    ensures r.Some? <==> HasId(cs, id)
    ensures r.Some? ==> exists i :: 0 <= i < |cs| && cs[i] == r.value && r.value.id == id
                                    && forall j :: 0 <= j < i ==> cs[j].id != id
  {
    match FirstIndex(cs, CourseId, id)
    case None => None
    case Some(i) => Some(cs[i])
  }

  /** In a catalog without repeated identifiers, the course found for the
      identifier of its k-th course is that course. */
  lemma FindCourseUnique(cs: seq<Course>, k: nat)
    requires UniqueIds(cs) && k < |cs|
    ensures FindCourse(cs, cs[k].id) == Some(cs[k])
  {
  }

  class CourseService {
    var cursos: seq<Course>
    var modulos: map<string, seq<Module>>
    var lecciones: map<string, seq<Lesson>>

    /** The invariant `create_curso` keeps: identifiers are unique. */
    ghost predicate Valid()
      reads this
    {
      UniqueIds(cursos)
    }

    /** The seed catalog carries distinct identifiers. */
    constructor (cursos: seq<Course>, modulos: map<string, seq<Module>>, lecciones: map<string, seq<Lesson>>)
      requires UniqueIds(cursos)
      ensures this.cursos == cursos && this.modulos == modulos && this.lecciones == lecciones
      ensures Valid()
    {
      this.cursos := cursos;
      this.modulos := modulos;
      this.lecciones := lecciones;
    }

    /** `GET /`: the whole catalog, in stored order. */
    function ListCursos(): (r: seq<Course>)
      reads this
      ensures r == cursos
    {
      cursos
    }

    /** `GET /{curso_id}`: the first course with that identifier, or 404. */
    function GetCurso(id: string): (r: Result<Course>)
      reads this
      ensures r.Err? <==> !HasId(cursos, id)
      ensures r.Err? ==> r.status == NotFound
      ensures r.Ok? ==> r.value.id == id && FindCourse(cursos, id) == Some(r.value)
      ensures Valid() && r.Ok? ==> forall i :: 0 <= i < |cursos| && cursos[i].id == id ==> cursos[i] == r.value
    {
      match FindCourse(cursos, id)
      case None => Err(NotFound)
      case Some(c) => Ok(c)
    }

    /** `GET /{curso_id}/modulos`: the stored module list, `[]` for an unknown course. */
    function GetModulos(cursoId: string): (r: seq<Module>)
      reads this
      ensures cursoId in modulos ==> r == modulos[cursoId]
      ensures cursoId !in modulos ==> r == []
    {
      GetOrEmpty(modulos, cursoId)
    }

    /** `GET /modulos/{modulo_id}/lecciones`: the stored lessons, `[]` for an unknown module. */
    function GetLecciones(moduloId: string): (r: seq<Lesson>)
      reads this
      ensures moduloId in lecciones ==> r == lecciones[moduloId]
      ensures moduloId !in lecciones ==> r == []
    {
      GetOrEmpty(lecciones, moduloId)
    }

    /** `POST /cursos`: a duplicate identifier is a 400 and changes nothing;
        otherwise the course is appended at the end of the catalog. */
    method CreateCurso(c: Course) returns (r: Result<Course>)
      modifies this`cursos
      ensures HasId(old(cursos), c.id) ==> r == Err(BadRequest) && cursos == old(cursos)
      ensures !HasId(old(cursos), c.id) ==> r == Ok(c) && cursos == old(cursos) + [c]
      ensures old(Valid()) ==> Valid()
      ensures r.Ok? ==> GetCurso(c.id) == Ok(c)
      ensures forall id :: id != c.id ==> GetCurso(id) == old(GetCurso(id))
    {
      var i := 0;
      while i < |cursos|
        invariant 0 <= i <= |cursos|
        invariant forall j :: 0 <= j < i ==> cursos[j].id != c.id
      {
        if cursos[i].id == c.id {
          return Err(BadRequest);
        }
        i := i + 1;
      }
      ghost var before := cursos;
      cursos := cursos + [c];
      AppendKeepsLookups(before, c);
      r := Ok(c);
    }
  }

  /** Appending a course with a fresh identifier makes it the one found
      under that identifier and changes no other lookup. */
  lemma AppendKeepsLookups(cs: seq<Course>, c: Course)
    requires !HasId(cs, c.id)
    ensures FindCourse(cs + [c], c.id) == Some(c)
    ensures forall id :: id != c.id ==> FindCourse(cs + [c], id) == FindCourse(cs, id)
    ensures UniqueIds(cs) ==> UniqueIds(cs + [c])
  {
    var ext := cs + [c];
    assert ext[|cs|] == c;
    assert HasId(ext, c.id);
    var r := FindCourse(ext, c.id);
    var i :| 0 <= i < |ext| && ext[i] == r.value && r.value.id == c.id
             && forall j :: 0 <= j < i ==> ext[j].id != c.id;
    assert forall j :: 0 <= j < |cs| ==> ext[j].id != c.id;
    forall id | id != c.id
      ensures FindCourse(ext, id) == FindCourse(cs, id)
    {
      FirstIndexAppendMiss(cs, c, id);
    }
  }

  lemma {:induction false} FirstIndexAppendMiss(cs: seq<Course>, c: Course, id: string)
    requires c.id != id
    ensures FirstIndex(cs + [c], CourseId, id) == FirstIndex(cs, CourseId, id)
    decreases |cs|
  {
    if cs != [] {
      assert (cs + [c])[1..] == cs[1..] + [c];
      FirstIndexAppendMiss(cs[1..], c, id);
    }
  }
}
