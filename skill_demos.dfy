/**
 * The quiz on the skill-demonstration page: a question index, the answers
 * chosen so far (keyed by question id), a completion flag and a score that
 * counts the questions whose chosen answer is the correct one.
 */
module SkillDemos {

  datatype Question = Question(id: int, prompt: string, options: seq<string>, correctAnswer: int)

  /** The five sample questions, with their zero-based correct answers. */
  function SampleQuestions(): (qs: seq<Question>)
    ensures |qs| == 5
  {
    [ SampleQuestion1(), SampleQuestion2(), SampleQuestion3(), SampleQuestion4(), SampleQuestion5() ]
  }

  /** Question `q` is numbered `id`, offers four answers and `answer` is its correct one. */
  predicate Offers(q: Question, id: int, answer: int) {
    q.id == id && |q.options| == 4 && q.correctAnswer == answer
  }

  /**
   * The sample questions are numbered 1 to 5 in order, each has four options, and
   * each correct answer is one of them: 2, 1, 0, 1 and 0.
   */
  lemma SampleQuestionsWellFormed()
    ensures Offers(SampleQuestions()[0], 1, 2) && Offers(SampleQuestions()[1], 2, 1)
    ensures Offers(SampleQuestions()[2], 3, 0) && Offers(SampleQuestions()[3], 4, 1)
    ensures Offers(SampleQuestions()[4], 5, 0)
    ensures forall i :: 0 <= i < |SampleQuestions()| ==>
      SampleQuestions()[i].id == i + 1 && 0 <= SampleQuestions()[i].correctAnswer < |SampleQuestions()[i].options|
  {
    var qs := SampleQuestions();
    assert Offers(qs[0], 1, 2) && Offers(qs[1], 2, 1) && Offers(qs[2], 3, 0);
    assert Offers(qs[3], 4, 1) && Offers(qs[4], 5, 0);
    forall i | 0 <= i < |qs| ensures qs[i].id == i + 1 && 0 <= qs[i].correctAnswer < |qs[i].options| {
      if i == 0 {} else if i == 1 {} else if i == 2 {} else if i == 3 {} else {}
    }
  }

  function SampleQuestion1(): (q: Question)
    ensures q.id == 1 && |q.options| == 4 && q.correctAnswer == 2
  {
    Question(1, "Which of the following is NOT a valid Solidity event declaration?",
      [ "event Transfer(address indexed from, address indexed to, uint256 value);",
        "event Approval(address owner, address spender, uint256 value);",
        "event NewOwner indexed(address oldOwner, address newOwner);",
        "event Paused(address account);" ], 2)
  }

  function SampleQuestion2(): (q: Question)
    ensures q.id == 2 && |q.options| == 4 && q.correctAnswer == 1
  {
    Question(2, "What does the 'memory' keyword indicate in Solidity?",
      [ "Data will be stored permanently on the blockchain",
        "Data is stored temporarily during function execution",
        "Data is stored in calldata and cannot be modified",
        "Data is stored in the stack and has limited size" ], 1)
  }

  function SampleQuestion3(): (q: Question)
    ensures q.id == 3 && |q.options| == 4 && q.correctAnswer == 0
  {
    Question(3, "Which React hook would you use to run code only when a component mounts?",
      [ "useEffect(() => {}, [])",
        "useState()",
        "useCallback(() => {}, [])",
        "useEffect(() => {})" ], 0)
  }

  function SampleQuestion4(): (q: Question)
    ensures q.id == 4 && |q.options| == 4 && q.correctAnswer == 1
  {
    Question(4, "What's the purpose of the 'payable' modifier in Solidity?",
      [ "It makes functions cheaper to execute",
        "It allows functions to receive Ether",
        "It ensures functions can only be called by the contract owner",
        "It guarantees functions will never revert" ], 1)
  }

  function SampleQuestion5(): (q: Question)
    ensures q.id == 5 && |q.options| == 4 && q.correctAnswer == 0
  {
    Question(5, "Which tool is commonly used for Ethereum smart contract testing?",
      [ "Truffle", "Webpack", "Babel", "ESLint" ], 0)
  }

  /** A question counts as right when an answer was chosen for its id and it is the correct index. */
  predicate AnsweredCorrectly(q: Question, answers: map<int, int>) {
    q.id in answers && answers[q.id] == q.correctAnswer
  }

  /** The number of questions answered correctly, counted front to back. */
  function CountCorrect(qs: seq<Question>, answers: map<int, int>): nat {
    if qs == [] then 0
    else CountCorrect(qs[..|qs| - 1], answers) + (if AnsweredCorrectly(qs[|qs| - 1], answers) then 1 else 0)
  }

  /** The positions of the questions answered correctly. */
  function CorrectPositions(qs: seq<Question>, answers: map<int, int>): set<int> {
    set i | 0 <= i < |qs| && AnsweredCorrectly(qs[i], answers)
  }

  /** The positions of the questions that have an answer at all. */
  function AnsweredPositions(qs: seq<Question>, answers: map<int, int>): set<int> {
    set i | 0 <= i < |qs| && qs[i].id in answers
  }

  /** The score is the number of positions answered correctly. */
  lemma {:induction false} CountCorrectIsCardinality(qs: seq<Question>, answers: map<int, int>)
    ensures CountCorrect(qs, answers) == |CorrectPositions(qs, answers)|
  {
    if qs != [] {
      var n := |qs| - 1;
      var front := qs[..n];
      CountCorrectIsCardinality(front, answers);
      var before := CorrectPositions(front, answers);
      var after := CorrectPositions(qs, answers);
      if AnsweredCorrectly(qs[n], answers) {
        assert after == before + {n};
      } else {
        assert after == before;
      }
    }
  }

  /** The score never exceeds the number of questions. */
  lemma {:induction false} CountCorrectBounded(qs: seq<Question>, answers: map<int, int>)
    ensures CountCorrect(qs, answers) <= |qs|
  {
    if qs != [] {
      CountCorrectBounded(qs[..|qs| - 1], answers);
    }
  }

  /** The score is perfect exactly when every question is answered correctly. */
  lemma {:induction false} PerfectScoreIff(qs: seq<Question>, answers: map<int, int>)
    ensures CountCorrect(qs, answers) == |qs| <==> forall i :: 0 <= i < |qs| ==> AnsweredCorrectly(qs[i], answers)
  {
    if qs != [] {
      var n := |qs| - 1;
      var front := qs[..n];
      PerfectScoreIff(front, answers);
      CountCorrectBounded(front, answers);
      if forall i :: 0 <= i < |qs| ==> AnsweredCorrectly(qs[i], answers) {
        forall i | 0 <= i < n ensures AnsweredCorrectly(front[i], answers) {
          assert front[i] == qs[i];
        }
      }
      if CountCorrect(qs, answers) == |qs| {
        forall i | 0 <= i < |qs| ensures AnsweredCorrectly(qs[i], answers) {
          if i < n { assert front[i] == qs[i]; }
        }
      }
    }
  }

  /** Unanswered questions count as wrong: the score is at most the number of answered questions. */
  lemma UnansweredCountAsWrong(qs: seq<Question>, answers: map<int, int>)
    ensures CountCorrect(qs, answers) <= |AnsweredPositions(qs, answers)|
  {
    CountCorrectIsCardinality(qs, answers);
    SubsetCardinality(CorrectPositions(qs, answers), AnsweredPositions(qs, answers));
  }

  lemma SubsetCardinality(a: set<int>, b: set<int>)
    requires a <= b
    ensures |a| <= |b|
  {
    assert b == a + (b - a);
    assert a * (b - a) == {};
  }

  /** With no answers at all the score is zero. */
  lemma NoAnswersScoreZero(qs: seq<Question>)
    ensures CountCorrect(qs, map[]) == 0
  {
    UnansweredCountAsWrong(qs, map[]);
    assert AnsweredPositions(qs, map[]) == {};
  }

  /**
   * The score loop of the "Complete Quiz" handler: walk the questions and count
   * those whose chosen answer is the correct one.
   */
  method CountCorrectAnswers(qs: seq<Question>, answers: map<int, int>) returns (correct: nat)
    ensures correct == |CorrectPositions(qs, answers)|
    ensures correct <= |qs|
  {
    correct := 0;
    var i := 0;
    while i < |qs|
      invariant 0 <= i <= |qs|
      invariant correct == CountCorrect(qs[..i], answers)
    {
      assert qs[..i + 1][..i] == qs[..i];
      if qs[i].id in answers && answers[qs[i].id] == qs[i].correctAnswer {
        correct := correct + 1;
      }
      i := i + 1;
    }
    assert qs[..i] == qs;
    CountCorrectIsCardinality(qs, answers);
    CountCorrectBounded(qs, answers);
  }

  /** The message shown under the final score. */
  datatype Tier = Perfect | Good | KeepLearning

  function TierRank(t: Tier): nat {
    match t
    case KeepLearning => 0
    case Good => 1
    case Perfect => 2
  }

  /** "Perfect" for a full score, else "Good" from half the questions (rounded down), else "Keep learning". */
  function ResultTier(score: int, total: nat): (tier: Tier)
    ensures tier == Perfect <==> score == total
    ensures tier == KeepLearning <==> score != total && 2 * score + 1 < total
  {
    if score == total then Perfect
    else if score >= total / 2 then Good
    else KeepLearning
  }

  /** A higher score never shows a lower tier. */
  lemma ResultTierMonotone(s1: int, s2: int, total: nat)
    requires 0 <= s1 <= s2 <= total
    ensures TierRank(ResultTier(s1, total)) <= TierRank(ResultTier(s2, total))
  {
  }

  /** The "Perfect" tier of a completed quiz means every question was answered correctly. */
  lemma PerfectTierIffAllCorrect(qs: seq<Question>, answers: map<int, int>)
    ensures ResultTier(CountCorrect(qs, answers), |qs|) == Perfect
        <==> forall i :: 0 <= i < |qs| ==> AnsweredCorrectly(qs[i], answers)
  {
    PerfectScoreIff(qs, answers);
  }

  /** For the five sample questions: "Good" is exactly a score of 2, 3 or 4. */
  lemma SampleTiers(score: int)
    requires 0 <= score <= |SampleQuestions()|
    ensures ResultTier(score, |SampleQuestions()|) == Perfect <==> score == 5
    ensures ResultTier(score, |SampleQuestions()|) == Good <==> 2 <= score <= 4
    ensures ResultTier(score, |SampleQuestions()|) == KeepLearning <==> score <= 1
  {
  }

  /** The quiz component's state. */
  class Quiz {
    const questions: seq<Question>
    var currentQuestion: int
    var selectedAnswers: map<int, int>
    var isQuizCompleted: bool
    var score: int

    ghost predicate Valid()
      reads this
    {
      |questions| > 0 && 0 <= currentQuestion < |questions| && 0 <= score <= |questions|
    }

    constructor ()
      ensures Valid()
      ensures questions == SampleQuestions()
      ensures currentQuestion == 0 && selectedAnswers == map[] && !isQuizCompleted && score == 0
    {
      questions := SampleQuestions();
      currentQuestion := 0;
      selectedAnswers := map[];
      isQuizCompleted := false;
      score := 0;
    }

    /** Records `answerIndex` for `questionId`, replacing any earlier choice for it. */
    method AnswerSelect(questionId: int, answerIndex: int)
      requires Valid()
      modifies this
      ensures Valid()
      ensures selectedAnswers == old(selectedAnswers)[questionId := answerIndex]
      ensures forall id :: id != questionId ==>
        (id in selectedAnswers <==> id in old(selectedAnswers)) &&
        (id in selectedAnswers ==> selectedAnswers[id] == old(selectedAnswers)[id])
      ensures currentQuestion == old(currentQuestion) && isQuizCompleted == old(isQuizCompleted)
      ensures score == old(score)
    {
      selectedAnswers := selectedAnswers[questionId := answerIndex];
    }

    /**
     * "Next Question" before the last question moves one step; on the last one
     * ("Complete Quiz") it scores the quiz and marks it completed.
     */
    method Next()
      requires Valid()
      modifies this
      ensures Valid()
      ensures selectedAnswers == old(selectedAnswers)
      ensures old(currentQuestion) < |questions| - 1 ==>
        currentQuestion == old(currentQuestion) + 1 &&
        score == old(score) && isQuizCompleted == old(isQuizCompleted)
      ensures old(currentQuestion) == |questions| - 1 ==>
        currentQuestion == old(currentQuestion) && isQuizCompleted &&
        score == |CorrectPositions(questions, selectedAnswers)|
    {
      if currentQuestion < |questions| - 1 {
        currentQuestion := currentQuestion + 1;
      } else {
        var correct := CountCorrectAnswers(questions, selectedAnswers);
        score := correct;
        isQuizCompleted := true;
      }
    }

    /** "Previous" steps back, and does nothing on the first question. */
    method Previous()
      requires Valid()
      modifies this
      ensures Valid()
      ensures currentQuestion == if old(currentQuestion) > 0 then old(currentQuestion) - 1 else 0
      ensures selectedAnswers == old(selectedAnswers) && isQuizCompleted == old(isQuizCompleted)
      ensures score == old(score)
    {
      if currentQuestion > 0 {
        currentQuestion := currentQuestion - 1;
      }
    }

    /** "Try Again" returns to the initial state. */
    method Reset()
      requires Valid()
      modifies this
      ensures Valid()
      ensures currentQuestion == 0 && selectedAnswers == map[] && !isQuizCompleted && score == 0
    {
      currentQuestion := 0;
      selectedAnswers := map[];
      isQuizCompleted := false;
      score := 0;
    }

    /** "Start Quiz" only goes back to the first question; answers, score and completion stay. */
    method StartQuiz()
      requires Valid()
      modifies this
      ensures Valid()
      ensures currentQuestion == 0
      ensures selectedAnswers == old(selectedAnswers) && isQuizCompleted == old(isQuizCompleted)
      ensures score == old(score)
    {
      currentQuestion := 0;
    }

    /** "Previous" is disabled on the first question, so it is enabled exactly when it would move. */
    function PreviousEnabled(): (enabled: bool)
      reads this
      requires Valid()
      ensures enabled <==> currentQuestion > 0
    {
      currentQuestion != 0
    }

    /** "Next Question" / "Complete Quiz" is enabled once the current question has an answer. */
    function NextEnabled(): (enabled: bool)
      reads this
      requires Valid()
      ensures enabled <==> currentQuestion in AnsweredPositions(questions, selectedAnswers)
    {
      questions[currentQuestion].id in selectedAnswers
    }

    /** The tier shown once the quiz is completed. */
    function ShownTier(): (tier: Tier)
      reads this
      ensures tier == Perfect <==> score == |questions|
    {
      ResultTier(score, |questions|)
    }
  }

  /**
   * A full run on the sample quiz: answering every question correctly and pressing
   * "Next" through to the end shows a perfect score.
   */
  method PerfectRun() returns (q: Quiz)
    ensures fresh(q) && q.Valid() && q.isQuizCompleted && q.score == 5 && q.ShownTier() == Perfect
  {
    q := new Quiz();
    var k := 0;
    while k < |q.questions|
      invariant 0 <= k <= |q.questions| && q.Valid() && q.questions == SampleQuestions()
      invariant q.currentQuestion == k || (k == |q.questions| && q.currentQuestion == k - 1)
      invariant !q.isQuizCompleted || k == |q.questions|
      invariant forall i :: 0 <= i < k ==> AnsweredCorrectly(q.questions[i], q.selectedAnswers)
      invariant k == |q.questions| ==> q.isQuizCompleted && q.score == |CorrectPositions(q.questions, q.selectedAnswers)|
      modifies q
    {
      var question := q.questions[k];
      assert q.currentQuestion == k;
      q.AnswerSelect(question.id, question.correctAnswer);
      assert q.NextEnabled();
      q.Next();
      k := k + 1;
    }
    CountCorrectIsCardinality(q.questions, q.selectedAnswers);
    PerfectScoreIff(q.questions, q.selectedAnswers);
  }
}
