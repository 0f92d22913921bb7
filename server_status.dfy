/** The lifecycle of the supervised server, as shown to the user (src/server_status.rs). */
module ServerStatuses {

  /**
   * `Running` carries no message: the status file declares one, but every
   * place that builds or matches a `Running` status uses it without one.
   */
  datatype ServerStatus =
    | StartUp
    | Running
    | Stopped(message: string)
    | Error(message: string)
}
