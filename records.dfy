/** The record shapes the application passes around: the interview setup
    (src/utils/localStorage.ts), the generated MCQ question and coding problem,
    and the feedback report (src/utils/geminiAPI.ts, src/pages/Results.tsx).
    Numbers are modelled as integers. */
module Records {

  /** The setup record written once by the setup form. The form always
      supplies a job description, possibly empty. */
  datatype InterviewSetup = InterviewSetup(
    jobTitle: string,
    company: string,
    experience: string,
    jobDescription: string,
    timestamp: string)

  datatype McqQuestion = McqQuestion(
    id: int,
    question: string,
    options: seq<string>,
    correctAnswer: int)

  datatype CodingProblem = CodingProblem(
    title: string,
    description: string,
    examples: seq<string>,
    constraints: seq<string>,
    complexity: string)

  datatype Scores = Scores(mcq: int, coding: int, systemDesign: int, hr: int, overall: int)

  datatype InterviewFeedback = InterviewFeedback(
    overall: string,
    mcq: string,
    coding: string,
    systemDesign: string,
    hr: string,
    scores: Scores,
    strengths: seq<string>,
    weaknesses: seq<string>,
    recommendations: seq<string>)
}
