/** The evaluations service: an in-memory table of quizzes keyed by their
    identifier, a learner-facing view of a quiz with the answer key
    removed, and the auto-grader that scores a submission. */
module Evaluaciones {
  import opened Common
  import opened Json

  /** A question is kept as the dictionary it is stored as ("id", "tipo",
      "texto", "opciones", "respuesta", ...). */
  type Question = map<string, Value>

  /** The body of a submission: question identifier to submitted value. */
  type Submission = map<string, Value>

  /** A stored quiz: its identifier and title, its ordered questions, and
      any further keys of the stored dictionary. */
  datatype Quiz = Quiz(id: string, titulo: string, preguntas: seq<Question>, extra: map<string, Value>)

  /** What `GET /{cuestionario_id}` returns. */
  datatype SafeQuiz = SafeQuiz(id: string, titulo: string, preguntas: seq<Question>)

  /** What `POST /{cuestionario_id}/responder` returns. */
  datatype Grade = Grade(score: real, correct: nat, total: nat)

  const AnswerKey: string := "respuesta"

  /** The question's identifier is a key of the submission and the value
      submitted for it equals the stored answer (a missing answer reads as
      None, as `p.get("respuesta")` does). */
  predicate AnsweredCorrectly(p: Question, sub: Submission)
    ensures !Get(p, "id").Str? ==> !AnsweredCorrectly(p, sub)
    ensures Get(p, AnswerKey) == Null ==>
      (AnsweredCorrectly(p, sub) <==> Get(p, "id").Str? && Get(p, "id").s in sub && sub[Get(p, "id").s] == Null)
  {
    var pid := Get(p, "id");
    pid.Str? && pid.s in sub && PyEq(sub[pid.s], Get(p, AnswerKey))
  }

  /** Number of questions of `ps` answered correctly by `sub`. */
  function CountCorrect(ps: seq<Question>, sub: Submission): (r: nat)
    ensures r <= |ps|
  {
    if ps == [] then 0
    else CountCorrect(ps[..|ps| - 1], sub) + (if AnsweredCorrectly(ps[|ps| - 1], sub) then 1 else 0)
  }

  /** `correct / total * 100`, or 0 when the quiz has no questions. */
  function Score(correct: nat, total: nat): (s: real)
    requires correct <= total
    ensures 0.0 <= s <= 100.0
    ensures s == 100.0 <==> total > 0 && correct == total
    ensures s == 0.0 <==> correct == 0
  {
    if total == 0 then 0.0 else (correct as real) / (total as real) * 100.0
  }

  /** The grade of a submission against a quiz. */
  function GradeOf(q: Quiz, sub: Submission): (g: Grade)
    ensures g.total == |q.preguntas|
    ensures g.correct <= g.total
    ensures 0.0 <= g.score <= 100.0
  {
    var c := CountCorrect(q.preguntas, sub);
    Grade(Score(c, |q.preguntas|), c, |q.preguntas|)
  }

  /** A question as a learner sees it: every key except the answer. */
  function Redact(p: Question): (r: Question)
    ensures AnswerKey !in r
    ensures r.Keys == p.Keys - {AnswerKey}
    ensures forall k :: k in r ==> r[k] == p[k]
  {
    p - {AnswerKey}
  }

  class QuizStore {
    var cuestionarios: map<string, Quiz>

    /** Every quiz is stored under its own identifier. */
    ghost predicate Valid()
      reads this
    {
      forall k :: k in cuestionarios ==> cuestionarios[k].id == k
    }

    /** The seed table stores each quiz under its own identifier. */
    constructor (seed: map<string, Quiz>)
      requires forall k :: k in seed ==> seed[k].id == k
      ensures cuestionarios == seed
      ensures Valid()
    {
      cuestionarios := seed;
    }

    /** `GET /{cuestionario_id}`: 404 for an unknown quiz; otherwise the
        quiz's identifier, title and questions in order, each question
        without its answer. Reads the table and changes nothing. */
    method GetCuestionario(qid: string) returns (r: Result<SafeQuiz>)
      ensures qid !in cuestionarios <==> r == Err(NotFound)
      ensures r.Ok? <==> qid in cuestionarios
      ensures r.Ok? ==> var q := cuestionarios[qid];
        && r.value.id == q.id && r.value.titulo == q.titulo
        && |r.value.preguntas| == |q.preguntas|
        && forall i :: 0 <= i < |q.preguntas| ==> r.value.preguntas[i] == Redact(q.preguntas[i])
      ensures Valid() && r.Ok? ==> r.value.id == qid
    {
      if qid !in cuestionarios {
        return Err(NotFound);
      }
      var q := cuestionarios[qid];
      var preguntas: seq<Question> := [];
      var i := 0;
      while i < |q.preguntas|
        invariant 0 <= i <= |q.preguntas|
        invariant |preguntas| == i
        invariant forall j :: 0 <= j < i ==> preguntas[j] == Redact(q.preguntas[j])
      {
        var qp := q.preguntas[i] - {AnswerKey};
        preguntas := preguntas + [qp];
        i := i + 1;
      }
      r := Ok(SafeQuiz(q.id, q.titulo, preguntas));
    }

    /** `POST /evaluaciones`: an identifier already in the table is a 400
        and the table is left as it was; otherwise the quiz is stored
        under its identifier and every other entry is left untouched. */
    method CreateEvaluacion(q: Quiz) returns (r: Result<Quiz>)
      modifies this
      ensures q.id in old(cuestionarios) ==> r == Err(BadRequest) && cuestionarios == old(cuestionarios)
      ensures q.id !in old(cuestionarios) ==> r == Ok(q) && cuestionarios == old(cuestionarios)[q.id := q]
      ensures old(Valid()) ==> Valid()
    {
      if q.id in cuestionarios {
        return Err(BadRequest);
      }
      cuestionarios := cuestionarios[q.id := q];
      r := Ok(q);
    }

    /** `POST /{cuestionario_id}/responder`: 404 for an unknown quiz (never
        a zero score); otherwise counts, question by question, the answers
        that match the stored ones. Reads the table and changes nothing. */
    method Responder(qid: string, sub: Submission) returns (r: Result<Grade>)
      ensures qid !in cuestionarios <==> r == Err(NotFound)
      ensures qid in cuestionarios ==> r == Ok(GradeOf(cuestionarios[qid], sub))
    {
      if qid !in cuestionarios {
        return Err(NotFound);
      }
      var q := cuestionarios[qid];
      var correct: nat := 0;
      var total := |q.preguntas|;
      var i := 0;
      while i < |q.preguntas|
        invariant 0 <= i <= |q.preguntas|
        invariant correct == CountCorrect(q.preguntas[..i], sub)
      {
        var p := q.preguntas[i];
        var pid := Get(p, "id");
        assert q.preguntas[..i + 1][..i] == q.preguntas[..i];
        if pid.Str? && pid.s in sub && PyEq(sub[pid.s], Get(p, AnswerKey)) {
          correct := correct + 1;
        }
        i := i + 1;
      }
      assert q.preguntas[..i] == q.preguntas;
      var score := if total != 0 then (correct as real) / (total as real) * 100.0 else 0.0;
      r := Ok(Grade(score, correct, total));
    }
  }

  /** Every question is answered correctly exactly when the count reaches
      the number of questions. */
  lemma {:induction false} AllCorrectIff(ps: seq<Question>, sub: Submission)
    ensures CountCorrect(ps, sub) == |ps| <==> forall i :: 0 <= i < |ps| ==> AnsweredCorrectly(ps[i], sub)
  {
    if ps != [] {
      var init := ps[..|ps| - 1];
      AllCorrectIff(init, sub);
      assert forall i :: 0 <= i < |init| ==> init[i] == ps[i];
    }
  }

  /** The score is 100 exactly when the quiz has a question and every
      question is answered correctly. */
  lemma PerfectScore(q: Quiz, sub: Submission)
    ensures GradeOf(q, sub).score == 100.0 <==>
      |q.preguntas| > 0 && forall i :: 0 <= i < |q.preguntas| ==> AnsweredCorrectly(q.preguntas[i], sub)
  {
    AllCorrectIff(q.preguntas, sub);
  }

  /** An empty submission answers nothing: no correct answer, score 0,
      total still the number of questions. */
  lemma {:induction false} EmptySubmission(ps: seq<Question>)
    ensures CountCorrect(ps, map[]) == 0
  {
    if ps != [] {
      EmptySubmission(ps[..|ps| - 1]);
    }
  }

  lemma EmptySubmissionGrade(q: Quiz)
    ensures GradeOf(q, map[]) == Grade(0.0, 0, |q.preguntas|)
  {
    EmptySubmission(q.preguntas);
  }

  /** The string identifiers of the questions of `ps`. */
  function QuestionIds(ps: seq<Question>): (ids: set<string>)
    ensures forall i :: 0 <= i < |ps| && Get(ps[i], "id").Str? ==> Get(ps[i], "id").s in ids
  {
    set i | 0 <= i < |ps| && Get(ps[i], "id").Str? :: Get(ps[i], "id").s
  }

  /** Submission keys that name no question have no effect: two
      submissions that agree on every question identifier grade alike. */
  lemma {:induction false} ExtraKeysIgnored(ps: seq<Question>, sub: Submission, sub': Submission)
    requires forall k :: k in QuestionIds(ps) ==> (k in sub <==> k in sub') && (k in sub ==> sub[k] == sub'[k])
    ensures CountCorrect(ps, sub) == CountCorrect(ps, sub')
  {
    if ps != [] {
      var init := ps[..|ps| - 1];
      assert forall i :: 0 <= i < |init| ==> init[i] == ps[i];
      assert QuestionIds(init) <= QuestionIds(ps);
      ExtraKeysIgnored(init, sub, sub');
      var last := ps[|ps| - 1];
      assert AnsweredCorrectly(last, sub) == AnsweredCorrectly(last, sub');
    }
  }

  /** Counting distributes over concatenation of question lists. */
  lemma {:induction false} CountAppend(a: seq<Question>, b: seq<Question>, sub: Submission)
    ensures CountCorrect(a + b, sub) == CountCorrect(a, sub) + CountCorrect(b, sub)
    decreases |b|
  {
    if b == [] {
      assert a + b == a;
    } else {
      var bi := b[..|b| - 1];
      assert (a + b)[..|a + b| - 1] == a + bi;
      CountAppend(a, bi, sub);
    }
  }

  /** Taking the j-th question out of a list removes exactly its own
      contribution to the count. */
  lemma CountRemove(qs: seq<Question>, j: nat, sub: Submission)
    requires j < |qs|
    ensures CountCorrect(qs, sub)
         == CountCorrect(qs[..j] + qs[j + 1..], sub) + (if AnsweredCorrectly(qs[j], sub) then 1 else 0)
  {
    assert qs == (qs[..j] + [qs[j]]) + qs[j + 1..];
    CountAppend(qs[..j] + [qs[j]], qs[j + 1..], sub);
    CountAppend(qs[..j], [qs[j]], sub);
    CountAppend(qs[..j], qs[j + 1..], sub);
    assert [qs[j]][..0] == [];
  }

  lemma MultisetRemove(qs: seq<Question>, j: nat)
    requires j < |qs|
    ensures multiset(qs[..j] + qs[j + 1..]) == multiset(qs) - multiset{qs[j]}
  {
    assert qs == qs[..j] + [qs[j]] + qs[j + 1..];
  }

  /** The order of the questions does not matter for scoring: any
      rearrangement of the same questions counts the same. */
  lemma {:induction false} CountPermutation(ps: seq<Question>, qs: seq<Question>, sub: Submission)
    requires multiset(ps) == multiset(qs)
    ensures CountCorrect(ps, sub) == CountCorrect(qs, sub)
    decreases |ps|
  {
    if ps == [] {
      assert |qs| == |multiset(qs)| == 0;
    } else {
      var n := |ps| - 1;
      var x := ps[n];
      assert x in multiset(qs);
      var j :| 0 <= j < |qs| && qs[j] == x;
      MultisetRemove(ps, n);
      MultisetRemove(qs, j);
      assert ps[..n] + ps[n + 1..] == ps[..n];
      CountPermutation(ps[..n], qs[..j] + qs[j + 1..], sub);
      CountRemove(qs, j, sub);
    }
  }
}
