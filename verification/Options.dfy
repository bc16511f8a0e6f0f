/** The optional value the models use. In the pager model `None` stands for a
    C execution that leaves its arrays or follows a missing swap line, so that
    nothing is promised about what it does next. */
module Options {

  datatype Option<+T> = None | Some(value: T) {

    predicate IsFailure() {
      None?
    }

    function PropagateFailure<U>(): Option<U>
      requires None?
    {
      None
    }

    function Extract(): T
      requires Some?
    {
      value
    }
  }
}
