/**
  The choice constants the models compare their status fields against.
  They come from the project's `choices` module, which is not part of this
  model, so their string values are parameters; the properties that need
  them to differ say so with `Distinct()`.
*/
module Choices {

  /** `StatusChoices`: the life cycle of a provider run or a mock session. */
  datatype StatusChoices = StatusChoices(
    stopped: string,
    running: string,
    starting: string,
    shuttingDown: string,
    errorDeploy: string)
  {
    predicate Distinct()
    {
      && stopped != running && stopped != starting && stopped != shuttingDown && stopped != errorDeploy
      && running != starting && running != shuttingDown && running != errorDeploy
      && starting != shuttingDown && starting != errorDeploy
      && shuttingDown != errorDeploy
    }
  }

  /** `AuthenticationChoices`: how a test scenario authenticates its calls. */
  datatype AuthenticationChoices = AuthenticationChoices(jwt: string, noAuth: string, header: string)
  {
    predicate Distinct()
    {
      jwt != noAuth && jwt != header && noAuth != header
    }
  }

  /** `HTTPCallChoiches`: the outcome of one expected call in a mock session. */
  datatype HttpCallChoices = HttpCallChoices(success: string, failed: string, notCalled: string)
  {
    predicate Distinct()
    {
      success != failed && success != notCalled && failed != notCalled
    }
  }

  /** `ResultChoices` of the Postman package: the verdict of one Newman run. */
  datatype ResultChoice = Success | Failed
}
