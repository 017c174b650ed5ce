/** The records the REST API returns, as far as the pages read them. */
module Records {
  import opened Wrappers

  datatype Trainer = Trainer(username: string)

  /** A course; `trainer` is absent when the server sends none. */
  datatype Course = Course(id: int, name: string, trainer: Option<Trainer>)

  /**
   * An entry of "my courses": `id` is the course id; `enrolledAt` is the
   * enrollment date as a timestamp; `trainer` is filled in by the learner
   * dashboard.
   */
  datatype Enrollment = Enrollment(id: int, enrollmentId: int, status: string, enrolledAt: int,
                                   trainer: Option<Trainer>)

  datatype Feedback = Feedback(id: int, learnerId: int, courseId: int, message: string, rating: int)
}
