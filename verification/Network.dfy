/** How a call between services can end. */
module Network {

  /** A call or a transaction may not happen, may happen and answer, or may happen and lose the answer. */
  datatype Transport = NotSent | Answered | AnswerLost
}
