/** What a handler shows or where it sends the user. The application raises
    toast notifications and calls the router; the model returns both as a
    value instead. */
module Ui {

  datatype Option<T> = None | Some(value: T)

  /** A toast notification: at most one per handler invocation here. */
  datatype Toast =
    | NoToast
    | SuccessToast(message: string)
    | ErrorToast(message: string)
    | WarningToast(message: string)

  /** The visible result of a handler: a toast and, possibly, a route the
      router is sent to (immediately or after the one-second delay). */
  datatype Outcome = Outcome(toast: Toast, route: Option<string>)

  const Quiet := Outcome(NoToast, None)

  function Show(t: Toast): Outcome {
    Outcome(t, None)
  }

  function Go(t: Toast, route: string): Outcome {
    Outcome(t, Some(route))
  }

  const HomeRoute := "/"
  const SetupRoute := "/setup"
  const McqRoute := "/mcq"
  const CodingRoute := "/coding"
  const SystemDesignRoute := "/system-design"
  const HrRoute := "/hr"
  const ResultsRoute := "/results"
}
