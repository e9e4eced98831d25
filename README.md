# Aprendelancia core, modelled in Dafny

Aprendelancia is a small e-learning demo. A Flask web frontend talks to
several FastAPI microservices. Each service keeps its data in a
module-level `DATA` dictionary. This project models the parts that
follow rules:

- the **evaluations service**: a table of quizzes, the learner's view of
  a quiz without the answer key, and the auto-grader;
- the **progress service**: per-student course progress, with an upsert
  per course, a lazy random allocation on first read, and a strict
  reassignment that replaces the whole list;
- the **course catalog service**: list, first-match lookup, module
  and lesson lookups with empty defaults, and create that rejects
  duplicates;
- the **frontend computations**: the instructor's course filter and
  statistics, the student's rounded average and pending-evaluation
  count, the join of progress entries with catalog titles, and the read
  side of the local `MockStore`.

Files (one module each):

- `common.dfy` (`Common`): `Option`, `Result`, the HTTP error statuses,
  the first-match search, and the dictionary get with a `[]` default.
- `json.dfy` (`Json`): decoded JSON values, `dict.get`, and Python's `==`
  on those values (`True == 1 == 1.0`).
- `cursos.dfy` (`Cursos`): the `Course` record and the `CourseService` class.
- `evaluaciones.dfy` (`Evaluaciones`): the `QuizStore` class and the grading
  specification.
- `progreso.dfy` (`Progreso`): the `ProgressStore` class, the upsert, and the
  two allocation paths.
- `frontend.dfy` (`Frontend`): the dashboard computations, the join, and the
  `MockStore` class.

Each service's in-memory table is a class field (`seq` or `map`). The
handlers that change it are methods with `modifies` clauses. Their
`ensures` state the new table in terms of the old one. Handlers that
only read are either methods without `modifies` (the evaluations
handlers, which loop) or functions with `reads this` (the catalog
getters, which only look up). Loops in the source are `while` loops
with invariants, proved against specification functions
(`CountCorrect`, `Upsert`, `Allocation`, `CatalogIndex`). The exception
is the first-match search of a course by identifier, which is the
recursive `FirstIndex` (through `FindCourse`). The properties are lemmas
about those functions.

Randomness is injected. Each allocation takes the number `k` drawn from
[3,5], the distinct catalog positions that `random.sample` picks, and
one `Draw` per course: the percentage, the hours, the lesson number and
the grade in tenths (35..50 stands for 3.5..5.0). Each value must lie
in the range its path draws from. The progress service's fetch of the
catalog is an input: `None` when the fetch fails, otherwise the course
list.

Notes on the code's behaviour:

- Questions carry a `respuesta` value compared against the submitted
  value, with Python's `==`.
- The two allocation paths keep their own constants. The bootstrap path
  uses pct in [10,95], hours in [1,40], and a grade iff pct >= 75. The
  reassignment path uses pct in [5,100], hours in [1,50], and a grade
  iff pct >= 80.
- Both paths write the fixed dates "2025-01-15" and "2025-11-17".
- A failed catalog fetch on the reassignment path is a 500, and an
  empty catalog is a 404.

## Model

| member | source | states |
|---|---|---|
| `Common.FirstIndex` | services/cursos/main.py:63-65 | the first-match search (also the loops of `create_curso`, `create_progreso` and the frontend store's `get_curso`): a found index holds the key and no earlier element does; nothing is found iff no element holds the key |
| `Cursos.CourseService.constructor` | services/cursos/main.py:18-35 | the service starts from a seed catalog whose ids are distinct (as `curso1`..`curso15` are), so the uniqueness invariant holds from the start |
| `Cursos.CourseService.ListCursos` | services/cursos/main.py:51-53 | the catalog is returned in stored order |
| `Cursos.FindCourse` | services/cursos/main.py:63-65 | finds a course iff some course has the id; the result is the first course with that id |
| `Cursos.FindCourseUnique` | services/cursos/main.py:63-65 | in a catalog with unique ids, looking up the id of the k-th course finds exactly that course |
| `Cursos.CourseService.GetCurso` | services/cursos/main.py:61-66 | 404 iff no course has the id; otherwise the first course with that id; in a catalog with unique ids, every course with that id is the one returned |
| `Cursos.CourseService.GetModulos` | services/cursos/main.py:69-71 | the stored module list for a known course, `[]` for an unknown one |
| `Cursos.CourseService.GetLecciones` | services/cursos/main.py:74-76 | the stored lesson list for a known module, `[]` for an unknown one |
| `Cursos.CourseService.CreateCurso` | services/cursos/main.py:79-88 | a duplicate id gives 400 and leaves the catalog unchanged; otherwise the course is appended at the end; id uniqueness is kept; the new course is what `GetCurso` then finds; every other lookup is unchanged |
| `Cursos.AppendKeepsLookups` | services/cursos/main.py:83-88 | appending a course with a fresh id makes it the match for its id, leaves every other first-match lookup as it was, and keeps ids unique |
| `Json.PyEqReflexive` | services/evaluaciones/main.py:80 | Python's `==` on decoded JSON values holds between a value and itself |
| `Json.PyEq` | services/evaluaciones/main.py:80 | Python's `==`: a number never equals a non-number, only None equals None, and two strings are equal iff they have the same text |
| `Json.PyEqSymmetric` | services/evaluaciones/main.py:80 | Python's `==` on decoded JSON values gives the same answer with its operands swapped |
| `Evaluaciones.QuizStore.constructor` | services/evaluaciones/main.py:19-29 | the table starts from a seed that stores each quiz under its own id (as `c1` is), so that invariant holds from the start |
| `Evaluaciones.AnsweredCorrectly` | services/evaluaciones/main.py:79-80 | a question without a string id is never answered correctly; a question without a stored answer is answered correctly exactly when its id is submitted with None |
| `Evaluaciones.Redact` | services/evaluaciones/main.py:50-51 | a question shown to a learner has no `respuesta` key and keeps every other key with its value |
| `Evaluaciones.QuizStore.GetCuestionario` | services/evaluaciones/main.py:42-53 | 404 iff the quiz is unknown; otherwise the quiz's id and title, and the same number of questions in the same order, each without its answer; the table is not modified; while every quiz is stored under its own id, the quiz returned is the one with the requested id |
| `Evaluaciones.QuizStore.CreateEvaluacion` | services/evaluaciones/main.py:60-67 | an existing id gives 400 and leaves the table unchanged; otherwise the quiz is stored under its id and no other entry changes; "stored under its own id" is kept |
| `Evaluaciones.QuizStore.Responder` | services/evaluaciones/main.py:70-83 | an unknown quiz is a 404, never a zero score; otherwise the loop's counter equals the specified count, and the result is its grade; the table is not modified |
| `Evaluaciones.CountCorrect` | services/evaluaciones/main.py:76-81 | the number of correctly answered questions is at most the number of questions |
| `Evaluaciones.Score` | services/evaluaciones/main.py:82 | the score lies in [0,100]; it is 100 iff total > 0 and every answer is correct; it is 0 iff nothing is correct |
| `Evaluaciones.GradeOf` | services/evaluaciones/main.py:76-83 | `total` is the number of questions, whatever was submitted; 0 <= correct <= total; 0 <= score <= 100 |
| `Evaluaciones.AllCorrectIff` | services/evaluaciones/main.py:78-81 | the count equals the number of questions iff every question is answered correctly |
| `Evaluaciones.PerfectScore` | services/evaluaciones/main.py:82-83 | the score is 100 iff the quiz has a question and every question is answered correctly |
| `Evaluaciones.EmptySubmission` | services/evaluaciones/main.py:79-80 | an empty submission answers nothing correctly |
| `Evaluaciones.EmptySubmissionGrade` | services/evaluaciones/main.py:76-83 | an empty submission grades as score 0, correct 0, total = number of questions |
| `Evaluaciones.ExtraKeysIgnored` | services/evaluaciones/main.py:79-80 | two submissions that agree on every question id grade alike, so keys that name no question have no effect |
| `Evaluaciones.CountPermutation` | services/evaluaciones/main.py:78-81 | the order of the questions does not matter: any permutation of them counts the same |
| `Progreso.ToEntry` | services/progreso/main.py:94 | a stored entry keeps the course, the completion and the grade of the request, and has no student field |
| `Progreso.Upsert` | services/progreso/main.py:91-98 | when the course already has an entry, the first such entry is replaced in place and the length is unchanged; otherwise the entry is appended at the end |
| `Progreso.UpsertFinds` | services/progreso/main.py:91-98 | after an upsert, the entry is the first one recorded for its course |
| `Progreso.UpsertIdempotent` | services/progreso/main.py:91-98 | applying the same upsert twice gives the same list as applying it once |
| `Progreso.UpsertKeepsUnique` | services/progreso/main.py:91-98 | an upsert keeps "at most one entry per course" |
| `Progreso.MakeEntry` | services/progreso/main.py:60-73 | the synthesised entry is about the given course; it has a grade iff pct reaches the path's threshold, the grade being the drawn tenths; its last lesson reads `Lección n`; draws within the path's ranges give an entry within them |
| `Progreso.Allocation` | services/progreso/main.py:56-74 | one entry per selected catalog position, entry i about the course at the i-th position |
| `Progreso.Allocate` | services/progreso/main.py:58-74 | the allocation loop builds exactly one synthesised entry per selected course, in selection order |
| `Progreso.AllocationSpec` | services/progreso/main.py:56-77 | an allocation has min(k, catalog size) entries (3 to 5 when the catalog has at least 3 courses); entry i is about the i-th selected course; every entry is in the path's pct and hours ranges; it has a grade in [3.5,5.0] iff pct reaches the path's threshold; with unique catalog ids the courses are distinct |
| `Progreso.ProgressStore.constructor` | services/progreso/main.py:22-24 | the store starts with no student records, so "one entry per course" holds from the start |
| `Progreso.ProgressStore.CoursesOf` | services/progreso/main.py:42 | a student's stored list, `[]` without a record; while the store is valid, that list has at most one entry per course |
| `Progreso.ProgressStore.NeedsBootstrap` | services/progreso/main.py:45 | a first read allocates exactly when the student's stored list is missing or empty |
| `Progreso.ProgressStore.CreateProgreso` | services/progreso/main.py:85-99 | a student without a record gets an empty list first; the student's list becomes its upsert; no other student changes; the result says whether an entry was replaced; "one entry per course" is kept |
| `Progreso.ProgressStore.ProgresoEstudiante` | services/progreso/main.py:39-82 | a non-empty record is returned unchanged and the store is not altered; otherwise an empty or unreachable catalog returns `[]` and stores nothing; otherwise the bootstrap allocation is stored for the student and returned |
| `Progreso.ProgressStore.AsignarCursosAleatorios` | services/progreso/main.py:102-146 | a failed fetch is a 500 and an empty catalog a 404, with the store unchanged in both cases; otherwise the student's whole list is replaced by the reassignment allocation, which is returned |
| `Progreso.ReadTwice` | services/progreso/main.py:42-45 | two reads in a row return the same list once the first is non-empty, whatever catalog fetch and random choices the second read gets, because a populated record is returned without fetching |
| `Frontend.Owns` | frontend/app.py:228 | a course taught by `inst1` belongs to every instructor; without an email, only those courses do |
| `Frontend.EnrichCourse` | frontend/app.py:239-245 | a table row carries the course's id, title, description, hours and rating |
| `Frontend.MisCursos` | frontend/app.py:228 | the instructor filter keeps exactly the courses whose `instructor_id` is the user's email or `'inst1'` |
| `Frontend.MisCursosAppend` | frontend/app.py:228 | filtering a concatenation gives the concatenation of the filtered parts, so catalog order is preserved |
| `Frontend.DashboardInstructor` | frontend/app.py:218-247 | the stats are n, 12·n and 3·n for the n filtered courses; the table has one row per filtered course, in the same order |
| `Frontend.PctOf` | frontend/app.py:285 | a missing `completado_pct` reads as 0; a present one is its integer value |
| `Frontend.SumPct` | frontend/app.py:285 | the total of the entries' pcts, non-negative when every pct is |
| `Frontend.SumPctBounds` | frontend/app.py:285 | with every pct in [0,100], the sum lies in [0, 100·n] |
| `Frontend.RoundHalfEven` | frontend/app.py:286 | `round(num / den)` is within half a step of the exact quotient, and an exact tie goes to the even integer |
| `Frontend.NearIntegers` | frontend/app.py:286 | two integers within half a step of the same quotient are at most one apart, and one apart only at a tie |
| `Frontend.RoundUnique` | frontend/app.py:286 | any integer with the nearest and ties-to-even properties is the rounded value, so those two properties define the rounding |
| `Frontend.RoundBetween` | frontend/app.py:286 | rounding a quotient that lies between lo and hi stays between lo and hi |
| `Frontend.Promedio` | frontend/app.py:284-288 | 0 without courses; otherwise an integer within half a step of the exact mean of the pcts |
| `Frontend.PromedioBounds` | frontend/app.py:284-288 | the student average lies in [0,100] when every pct does (0 when there are no courses) |
| `Frontend.Pending` | frontend/app.py:291 | an entry is pending only when it carries a pct (a missing one reads as 0) and has no grade |
| `Frontend.Pendientes` | frontend/app.py:291 | the pending count is at most the number of courses; it is 0 when no entry is pending and n when all are |
| `Frontend.CatalogIndex` | frontend/app.py:294-298 | every indexed course is a catalog course stored under its own id |
| `Frontend.CatalogIndexKeys` | frontend/app.py:294-298 | the `cursos_info` index knows exactly the catalog's ids |
| `Frontend.CatalogIndexLastWins` | frontend/app.py:294-298 | when catalog ids repeat, the last course with the id is the one indexed |
| `Frontend.BuildCatalogIndex` | frontend/app.py:367-372 | the loop that fills `cursos_info` builds exactly the catalog index |
| `Frontend.EnrichItem` | frontend/app.py:300-304 | an entry whose `curso_id` is a known id gains `curso_titulo` and `curso_descripcion` from that course and keeps every other key; any other entry is unchanged |
| `Frontend.EnrichKeepsStats` | frontend/app.py:300-304 | the join does not alter an entry's completion, grade or course id |
| `Frontend.EnrichProgress` | frontend/app.py:367-379 | the progress page's join keeps the number and order of the entries, and decorates each entry as `EnrichItem` does with the catalog index |
| `Frontend.StudentId` | frontend/app.py:253 | the student id is the email when it is non-empty, and the user id otherwise |
| `Frontend.DashboardEstudiante` | frontend/app.py:250-312 | with no student id, the stats are all zero and the list is empty; otherwise the stats are the count, the half-even rounded average (missing pct counts as 0) and the pending count, and the list is the joined entries |
| `Frontend.MockStore.constructor` | frontend/app.py:21-25 | the store holds the loaded courses, modules and lessons as given |
| `Frontend.MockStore.ListCursos` | frontend/app.py:66-67 | the stored courses, in order |
| `Frontend.MockStore.GetCurso` | frontend/app.py:69-73 | the first stored course with the id, or None iff there is none |
| `Frontend.MockStore.GetModulos` | frontend/app.py:75-76 | the stored modules of a course, `[]` for an unknown course |
| `Frontend.MockStore.GetLecciones` | frontend/app.py:78-79 | the stored lessons of a module, `[]` for an unknown module |

## Left out

- HTTP and routing: the FastAPI and Flask decorators, sessions, flash messages, templates, the `/` and `/health` endpoints, login/register/logout, and the message texts of the responses. These are entry points and presentation, not logic.
- `_call_service` (frontend/app.py:85-119) and the handlers' choice between a service response and the `MockStore`. These are network calls and status mapping. The values the services return are inputs to the model.
- `MockStore` file layer: JSON load and save, atomic replace, the unused `threading.Lock`, and the `progreso` key of its data. This is file I/O. The store's constructor takes the loaded data.
- Seed data: the initial quiz `c1`, the fifteen catalog courses and their modules and lessons are not written out. Both services' constructors take the initial tables.
- `create_evaluacion` validates an `Evaluacion` record whose `preguntas` is an optional int count and stores it as is. Grading or viewing such an entry would fail in `len` or in iteration. The model stores only quizzes that carry a question list (`Quiz`), so that failure is not modelled.
- Evaluaciones.GradeOf: the score for an empty quiz is the real 0.0. Python returns the int 0. The score is an exact real rather than a float, so float rounding of `correct / total * 100` is not modelled.
- Json.PyEq: floats are exact reals, so NaN and float precision are not modelled. Dictionary keys are strings, so a question id that is not a string never matches, as in Python. An unhashable id, which would raise in Python, is treated as absent.
- Randomness: `random.randint`, `random.sample` and `random.uniform` are replaced by injected choices with their ranges. The grade is taken in tenths, which is what `round(..., 1)` produces.
- Progreso: catalog entries are `Course` records, so a catalog dictionary without `"id"` (which would store `curso_id: None`) is not modelled.
- Frontend.DashboardEstudiante: requires every `completado_pct` to be an integer or absent. A string makes Python's `sum` or `>` raise. Bools and floats, which Python would accept, are not modelled.
- Frontend.RoundHalfEven: rounds the exact quotient. Python rounds the float `total / n`, which gives the same integer while |total| < 2^52.
- Frontend.EnrichItem: a catalog course always has a title and a description, so the `'Sin título'` and `''` defaults never apply. A `curso_id` that is a list or a dictionary, which would raise in Python, is treated as unknown.
- Diagnostic output: the `print` calls (services/progreso/main.py:51 and the frontend's `[DEBUG]` lines) only write to the console, so they are not modelled.
- The student dashboard's retry (frontend/app.py:271-275): when the first progress read is empty, the frontend asks for a reassignment and reads again. The model takes the entries of the final read as its input, so the extra POST and GET are not modelled.
- Concurrency: the check-then-write race on the first progress read is not modelled, because the model is sequential.
- Scripts and tests: the seeding, user-management and validation scripts and the test suites. These need live services, a database or a shell.
