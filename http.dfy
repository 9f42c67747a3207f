/** The JSON replies of the API controllers, reduced to status code and message. */
module Http {
  /** A reply: its HTTP status code and its `message`. */
  datatype Reply = Reply(status: nat, message: string)
  {
    /** The `success` flag of the body: every 2xx reply carries `true`. */
    predicate Success() { 200 <= status < 300 }
  }

  /** What Laravel answers when a form request's `authorize` is false. */
  const Unauthorized: Reply := Reply(403, "This action is unauthorized.")
}
