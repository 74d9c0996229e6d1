// RelayCommand (Services/RelayCommand.cs): an ICommand made of an action and
// an optional guard. The delegates close over a view-model; here they are
// functions of that view-model's state `S`, and the command parameter (of any
// type `P`) is passed in and ignored.
module Commands {
  import opened Wrappers

  datatype RelayCommand<!S> = RelayCommand(execute: S -> S, canExecute: Option<S -> bool>)

  /** The constructor: a missing action is an ArgumentNullException. */
  function NewRelayCommand<S>(execute: Option<S -> S>, canExecute: Option<S -> bool>): (r: Result<RelayCommand<S>>)
    ensures r.Failure? <==> execute.None?
    ensures r.Failure? ==> r.error == ArgumentNull("execute")
    ensures r.Success? ==> r.value.execute == execute.value && r.value.canExecute == canExecute
  {
    match execute
    case None => Failure(ArgumentNull("execute"))
    case Some(e) => Success(RelayCommand(e, canExecute))
  }

  /** `CanExecute(parameter)`: the guard's answer, or true when there is no guard. */
  function CanExecute<S, P>(command: RelayCommand<S>, parameter: P, s: S): bool
  {
    command.canExecute.None? || command.canExecute.value(s)
  }

  /** `Execute(parameter)`: runs the action. */
  function Execute<S, P>(command: RelayCommand<S>, parameter: P, s: S): S
  {
    command.execute(s)
  }

  /**
   * Neither the guard nor the action looks at the parameter. This lemma
   * documents the command's behaviour for a reader; Dafny needs no proof for it.
   */
  lemma ParameterIgnored<S, P>(command: RelayCommand<S>, p: P, q: P, s: S)
    ensures CanExecute(command, p, s) == CanExecute(command, q, s)
    ensures Execute(command, p, s) == Execute(command, q, s)
  {
  }

  /**
   * A command built without a guard can always execute; with one it answers
   * what the guard answers. Documentation of the behaviour, not proof work.
   */
  lemma GuardDecides<S, P>(execute: S -> S, canExecute: Option<S -> bool>, p: P, s: S)
    ensures var c := NewRelayCommand(Some(execute), canExecute).value;
      CanExecute(c, p, s) == (canExecute.None? || canExecute.value(s))
      && Execute(c, p, s) == execute(s)
  {
  }
}
